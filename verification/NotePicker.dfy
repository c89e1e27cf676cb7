/** Picking the input notes of a transaction: the lexicographic enumeration of
    4-combinations, in place, and what it picks from sorted notes. */
module NotePicker {
  import opened Collections

  const MAX_INPUT_NOTES: nat := 4

  /** Four strictly increasing indices below `maxLen`. */
  ghost predicate Combination(t: seq<nat>, maxLen: nat) {
    |t| == 4 && t[0] < t[1] < t[2] < t[3] < maxLen
  }

  /** Lexicographic order on 4-tuples. */
  ghost predicate LexLess(a: seq<nat>, b: seq<nat>)
    requires |a| == 4 && |b| == 4
  {
    a[0] < b[0] || (a[0] == b[0] && (
      a[1] < b[1] || (a[1] == b[1] && (
        a[2] < b[2] || (a[2] == b[2] && a[3] < b[3])))))
  }

  /** Every index from `i + 1` on is as large as it can get. */
  ghost predicate Exhausted(t: seq<nat>, i: nat, maxLen: nat)
    requires |t| == 4
  {
    forall j | i < j < 4 :: t[j] + 4 == j + maxLen
  }

  /** `t` with index `i` advanced and the later ones following it closely. */
  ghost predicate Bumped(t: seq<nat>, i: nat, u: seq<nat>)
    requires |t| == 4
  {
    |u| == 4 && i < 4 && (forall j | 0 <= j < i :: u[j] == t[j])
    && forall j | i <= j < 4 :: u[j] == t[i] + 1 + (j - i)
  }

  /** One step of the enumeration, in place. */
  method Advance(indices: array<nat>, maxLen: nat) returns (i: nat)
    requires indices.Length == 4 && Combination(indices[..], maxLen)
    modifies indices
    ensures i < 4 && Exhausted(old(indices[..]), i, maxLen) && Bumped(old(indices[..]), i, indices[..])
    ensures i == 0 || old(indices[..])[i] + 4 < i + maxLen
  {
    i := MAX_INPUT_NOTES - 1;
    while indices[i] == i + maxLen - MAX_INPUT_NOTES
      invariant i < 4 && indices[..] == old(indices[..])
      invariant Exhausted(indices[..], i, maxLen)
      decreases i
    {
      if i > 0 { i := i - 1; } else { break; }
    }
    assert i > 0 ==> indices[i] + 4 < i + maxLen;
    ghost var before := indices[..];
    indices[i] := indices[i] + 1;
    for j := i + 1 to MAX_INPUT_NOTES
      invariant forall k | 0 <= k < i :: indices[k] == before[k]
      invariant forall k | i <= k < j :: indices[k] == before[i] + 1 + (k - i)
    {
      indices[j] := indices[j - 1] + 1;
    }
  }

  /** When the step runs past the end, the last combination was reached. */
  lemma NothingAfter(t: seq<nat>, i: nat, u: seq<nat>, maxLen: nat, w: seq<nat>)
    requires Combination(t, maxLen) && i < 4 && Exhausted(t, i, maxLen) && Bumped(t, i, u)
    requires i == 0 || t[i] + 4 < i + maxLen
    requires u[3] == maxLen && Combination(w, maxLen)
    ensures w == t || LexLess(w, t)
  {
    assert i == 0;
    assert t == [t[0], t[1], t[2], t[3]] && w == [w[0], w[1], w[2], w[3]];
  }

  /** The step skips no combination. */
  lemma NothingBetween(t: seq<nat>, i: nat, u: seq<nat>, maxLen: nat, w: seq<nat>)
    requires Combination(t, maxLen) && i < 4 && Exhausted(t, i, maxLen) && Bumped(t, i, u)
    requires i == 0 || t[i] + 4 < i + maxLen
    requires u[3] != maxLen
    requires Combination(w, maxLen) && LexLess(w, u)
    ensures w == t || LexLess(w, t)
  {
    assert t == [t[0], t[1], t[2], t[3]] && w == [w[0], w[1], w[2], w[3]];
  }

  lemma StepIsCombination(t: seq<nat>, i: nat, u: seq<nat>, maxLen: nat)
    requires Combination(t, maxLen) && i < 4 && Exhausted(t, i, maxLen) && Bumped(t, i, u)
    requires i == 0 || t[i] + 4 < i + maxLen
    requires u[3] != maxLen
    ensures Combination(u, maxLen)
  {
  }

  /** `pick_lexicographic`: the first combination that is valid, or none when
      there is none. */
  method PickLexicographic(maxLen: nat, isValid: seq<nat> -> bool) returns (r: Option<seq<nat>>)
    requires maxLen >= MAX_INPUT_NOTES
    ensures r.Some? ==> Combination(r.value, maxLen) && isValid(r.value)
    ensures r.Some? ==> forall t | Combination(t, maxLen) && LexLess(t, r.value) :: !isValid(t)
    ensures r.None? ==> forall t | Combination(t, maxLen) :: !isValid(t)
  {
    var indices := new nat[MAX_INPUT_NOTES](i => i);
    while true
      invariant Combination(indices[..], maxLen)
      invariant forall t | Combination(t, maxLen) && LexLess(t, indices[..]) :: !isValid(t)
      decreases maxLen - indices[0], maxLen - indices[1], maxLen - indices[2], maxLen - indices[3]
    {
      ghost var before := indices[..];
      if isValid(indices[..]) {
        return Some(indices[..]);
      }
      var i := Advance(indices, maxLen);
      if indices[MAX_INPUT_NOTES - 1] == maxLen {
        forall t | Combination(t, maxLen) ensures !isValid(t) {
          NothingAfter(before, i, indices[..], maxLen, t);
        }
        break;
      }
      StepIsCombination(before, i, indices[..], maxLen);
      forall t | Combination(t, maxLen) && LexLess(t, indices[..]) ensures !isValid(t) {
        NothingBetween(before, i, indices[..], maxLen, t);
      }
    }
    return None;
  }

  // ------------------------------------------------------------ the notes

  datatype Note = Note(note: nat, value: nat, nullifier: nat)

  ghost predicate SortedByValue(s: seq<Note>) {
    forall i, j | 0 <= i < j < |s| :: s[i].value <= s[j].value
  }

  /** Insertion before the notes of equal value. */
  function Insert(n: Note, s: seq<Note>): seq<Note> {
    if s == [] || n.value <= s[0].value then [n] + s else [s[0]] + Insert(n, s[1..])
  }

  /** A stable sort in ascending order of value. */
  function SortByValue(s: seq<Note>): seq<Note> {
    if s == [] then [] else Insert(s[0], SortByValue(s[1..]))
  }

  lemma {:induction false} InsertContents(n: Note, s: seq<Note>)
    ensures multiset(Insert(n, s)) == multiset(s) + multiset{n}
  {
    if s != [] {
      assert s == [s[0]] + s[1..];
      if n.value > s[0].value { InsertContents(n, s[1..]); }
    }
  }

  lemma {:induction false} InsertSorted(n: Note, s: seq<Note>)
    requires SortedByValue(s)
    ensures SortedByValue(Insert(n, s))
  {
    if s != [] && n.value > s[0].value {
      InsertSorted(n, s[1..]);
      var rest := Insert(n, s[1..]);
      forall j | 0 <= j < |rest| ensures s[0].value <= rest[j].value {
        InsertContents(n, s[1..]);
        assert rest[j] in multiset(rest);
        assert rest[j] == n || rest[j] in s[1..];
      }
    }
  }

  /** The sort keeps the notes and orders them. */
  lemma {:induction false} SortIsCorrect(s: seq<Note>)
    ensures SortedByValue(SortByValue(s)) && multiset(SortByValue(s)) == multiset(s)
    ensures |SortByValue(s)| == |s|
  {
    if s != [] {
      assert s == [s[0]] + s[1..];
      SortIsCorrect(s[1..]);
      InsertSorted(s[0], SortByValue(s[1..]));
      InsertContents(s[0], SortByValue(s[1..]));
    }
    assert |multiset(SortByValue(s))| == |multiset(s)|;
  }

  function SumAt(s: seq<Note>, t: seq<nat>): nat
    requires |t| == 4 && forall i | 0 <= i < 4 :: t[i] < |s|
  {
    s[t[0]].value + s[t[1]].value + s[t[2]].value + s[t[3]].value
  }

  function LargestFour(s: seq<Note>): nat
    requires |s| >= 4
  {
    SumAt(s, [|s| - 4, |s| - 3, |s| - 2, |s| - 1])
  }

  /** No combination of sorted notes is worth more than the last four. */
  lemma LastFourAreLargest(s: seq<Note>, t: seq<nat>)
    requires SortedByValue(s) && Combination(t, |s|)
    ensures SumAt(s, t) <= LargestFour(s)
  {
    AtMost(s, t[0], |s| - 4);
    AtMost(s, t[1], |s| - 3);
    AtMost(s, t[2], |s| - 2);
    AtMost(s, t[3], |s| - 1);
  }

  lemma AtMost(s: seq<Note>, i: nat, j: nat)
    requires SortedByValue(s) && i <= j < |s|
    ensures s[i].value <= s[j].value
  {
  }

  function Covers(s: seq<Note>, value: nat): seq<nat> -> bool {
    (t: seq<nat>) =>
      |t| == 4 && (forall i | 0 <= i < 4 :: t[i] < |s|) && SumAt(s, t) >= value
  }

  /** The notes at the first combination, in the order of ascending values, that
      covers `value`. */
  ghost predicate FirstCover(sorted: seq<Note>, value: nat, picked: seq<Note>) {
    exists t :: Combination(t, |sorted|) && IsFirstCover(sorted, value, t)
                && picked == [sorted[t[0]], sorted[t[1]], sorted[t[2]], sorted[t[3]]]
  }

  ghost predicate IsFirstCover(sorted: seq<Note>, value: nat, t: seq<nat>)
    requires Combination(t, |sorted|)
  {
    SumAt(sorted, t) >= value
    && forall u | Combination(u, |sorted|) && LexLess(u, t) :: SumAt(sorted, u) < value
  }

  /** `pick_notes`: up to four notes are all taken. Of more, four that cover the
      value are taken, the first such in the order of ascending values; none are
      taken exactly when the four largest do not cover it. */
  method PickNotes(value: nat, notes: seq<Note>) returns (picked: seq<Note>)
    ensures |notes| <= MAX_INPUT_NOTES ==> picked == notes
    ensures |notes| > MAX_INPUT_NOTES ==>
              var sorted := SortByValue(notes);
              && |sorted| == |notes|
              && (picked == [] <==> LargestFour(sorted) < value)
              && (picked != [] ==> FirstCover(sorted, value, picked))
  {
    hide LexLess, Covers, LargestFour, SortByValue, IsFirstCover;
    if |notes| <= MAX_INPUT_NOTES {
      return notes;
    }
    SortIsCorrect(notes);
    var sorted := SortByValue(notes);
    var indices := PickLexicographic(|sorted|, Covers(sorted, value));
    if indices.None? {
      LastCovers(sorted, value);
      return [];
    }
    var t := indices.value;
    CoverIsFirst(sorted, value, t);
    return [sorted[t[0]], sorted[t[1]], sorted[t[2]], sorted[t[3]]];
  }

  lemma LastCovers(sorted: seq<Note>, value: nat)
    requires |sorted| >= 4
    ensures var last := [|sorted| - 4, |sorted| - 3, |sorted| - 2, |sorted| - 1];
            Combination(last, |sorted|) && (Covers(sorted, value)(last) <==> LargestFour(sorted) >= value)
  {
  }

  lemma CoverIsFirst(sorted: seq<Note>, value: nat, t: seq<nat>)
    requires SortedByValue(sorted) && Combination(t, |sorted|) && Covers(sorted, value)(t)
    requires forall u | Combination(u, |sorted|) && LexLess(u, t) :: !Covers(sorted, value)(u)
    ensures IsFirstCover(sorted, value, t) && LargestFour(sorted) >= value
  {
    hide LexLess;
    LastFourAreLargest(sorted, t);
    forall u | Combination(u, |sorted|) && LexLess(u, t) ensures SumAt(sorted, u) < value {
      assert !Covers(sorted, value)(u);
    }
  }
}
