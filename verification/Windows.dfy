/** Rate-limit windows and the snapshots that carry them. */
module Windows {
  import opened Basics

  // A floating-point reading: a finite number or one of the values no
  // comparison orders safely.
  datatype Float = Fin(r: real) | PosInf | NegInf | NaN

  datatype Kind = Session | Weekly | WeeklyScoped | OtherKind(name: string)

  datatype Window = Window(kind: Kind, scope: string, util: Float, resetsAt: Option<int>, duration: int,
                           status: string, severity: string, active: bool, derived: bool)

  datatype Source = UsageEndpoint | ResponseHeaders | NoSource

  datatype Snapshot = Snapshot(authID: string, authIndex: string, name: string, windows: seq<Window>,
                               observedAt: Option<int>, source: Source, err: string, errCategory: string)

  const FAMILIES := ["Opus", "Sonnet", "Fable", "Haiku"]
  const REJECTED := "rejected"

  function LowerChar(c: char): char {
    if 'A' <= c <= 'Z' then ((c as int) - ('A' as int) + ('a' as int)) as char else c
  }

  function Lower(s: string): (r: string)
    ensures |r| == |s|
  {
    if s == [] then [] else [LowerChar(s[0])] + Lower(s[1..])
  }

  predicate Contains(s: string, t: string) {
    |t| <= |s| && (s[..|t|] == t || (s != [] && Contains(s[1..], t)))
  }

  function FamilyFrom(s: string, i: nat): string
    requires i <= |FAMILIES|
    decreases |FAMILIES| - i
  {
    if i == |FAMILIES| then "" else if Contains(Lower(s), Lower(FAMILIES[i])) then FAMILIES[i] else FamilyFrom(s, i + 1)
  }

  function FamilyOf(s: string): string { FamilyFrom(s, 0) }

  predicate BearsOn(w: Window, family: string) {
    match w.kind
    case Session => true
    case Weekly => true
    case WeeklyScoped => family != "" && FamilyOf(w.scope) == family
    case OtherKind(_) => false
  }

  predicate Blocking(w: Window) { w.status == REJECTED }

  // The share of the window that has passed, clamped to 0..1.
  function Elapsed(w: Window, now: int): (e: real)
    ensures 0.0 <= e <= 1.0
  {
    if w.resetsAt.None? || w.duration <= 0 then 0.0
    else
      var remaining := w.resetsAt.value - now;
      if remaining <= 0 then 1.0
      else if remaining >= w.duration then 0.0
      else
        assert 0.0 <= remaining as real / w.duration as real <= 1.0;
        1.0 - remaining as real / w.duration as real
  }

  predicate Stale(s: Snapshot, now: int, maxAge: int) {
    s.observedAt.None? || now - s.observedAt.value > maxAge
  }
}
