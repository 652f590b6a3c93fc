/** Replacing the image references of a Markdown document by the URLs the images were uploaded to. */
module Images {
  import opened Basics

  /** A reference found in the document: bytes [startPos, endPos) hold a tag that mentions `ref`. */
  datatype Reference = Reference(ref: Bytes, url: Bytes, startPos: int, endPos: int)

  datatype Error = InvalidRange(ref: Bytes) | OverlappingRange(lastPos: int, at: int)

  /** A start or (last byte of an) end of a range. */
  datatype Pos = Pos(at: int, end: bool)

  // ---------------------------------------------------------------- specification

  /** References whose range is unknown have endPos 0 and are ignored. */
  function Kept(refs: seq<Reference>): seq<Reference> {
    if refs == [] then []
    else Kept(refs[..|refs| - 1]) + if refs[|refs| - 1].endPos == 0 then [] else [refs[|refs| - 1]]
  }

  /** The kept references are those with an endPos other than 0, one each and in order. */
  lemma {:induction false} KeptAt(refs: seq<Reference>) returns (at: seq<nat>)
    ensures Picks(refs, at, Kept(refs))
    ensures forall i: nat :: i in at <==> i < |refs| && refs[i].endPos != 0
  {
    at := [];
    if refs != [] {
      var n := |refs| - 1;
      var front := KeptAt(refs[..n]);
      assert refs == refs[..n] + [refs[n]];
      PicksMore(refs[..n], front, Kept(refs[..n]), refs[n]);
      at := if refs[n].endPos == 0 then front else front + [n];
    }
  }

  lemma {:induction false} KeptCount(refs: seq<Reference>, r: Reference)
    ensures multiset(Kept(refs))[r] == if r.endPos == 0 then 0 else multiset(refs)[r]
  {
    if refs != [] {
      var n := |refs| - 1;
      KeptCount(refs[..n], r);
      assert refs == refs[..n] + [refs[n]];
      assert multiset(refs) == multiset(refs[..n]) + multiset{refs[n]};
      assert multiset(Kept(refs)) ==
          multiset(Kept(refs[..n])) + if refs[n].endPos == 0 then multiset{} else multiset{refs[n]};
    }
  }

  predicate NonEmpty(r: Reference) {
    r.startPos < r.endPos
  }

  predicate Covers(r: Reference, p: int) {
    r.startPos <= p < r.endPos
  }

  /** Both ranges are known and hold byte p. */
  predicate SharedBy(r: Reference, r': Reference, p: int) {
    r.endPos != 0 && r'.endPos != 0 && r.startPos <= p < r.endPos && r'.startPos <= p < r'.endPos
  }

  ghost predicate CoveredTwice(reps: seq<Reference>, p: int) {
    exists i, j :: 0 <= i < j < |reps| && Covers(reps[i], p) && Covers(reps[j], p)
  }

  /** Two of the ranges share a byte. */
  ghost predicate Overlapping(reps: seq<Reference>) {
    exists p :: CoveredTwice(reps, p)
  }

  ghost predicate AllNonEmpty(reps: seq<Reference>) {
    forall i :: 0 <= i < |reps| ==> NonEmpty(reps[i])
  }

  ghost predicate InBounds(contents: Bytes, reps: seq<Reference>) {
    forall i :: 0 <= i < |reps| ==> 0 <= reps[i].startPos <= reps[i].endPos <= |contents|
  }

  predicate OccursAt(s: Bytes, sub: Bytes, k: nat) {
    k + |sub| <= |s| && s[k..k + |sub|] == sub
  }

  /** The first place where sub occurs in s. */
  function IndexOf(s: Bytes, sub: Bytes): (r: Option<nat>)
    ensures r.Some? ==> OccursAt(s, sub, r.value) && forall k: nat :: k < r.value ==> !OccursAt(s, sub, k)
    ensures r.None? ==> forall k: nat :: !OccursAt(s, sub, k)
  {
    if OccursAt(s, sub, 0) then Some(0)
    else if s == [] then None
    else
      var r := IndexOf(s[1..], sub);
      assert forall k: nat {:trigger OccursAt(s, sub, k)} :: k > 0 ==>
          OccursAt(s, sub, k) == OccursAt(s[1..], sub, k - 1);
      if r.None? then None else Some(r.value + 1)
  }

  /** strings.Replace(s, old, new, 1). */
  function ReplaceFirst(s: Bytes, old_: Bytes, new_: Bytes): Bytes {
    match IndexOf(s, old_)
    case None => s
    case Some(k) => s[..k] + new_ + s[k + |old_|..]
  }

  function Tag(contents: Bytes, r: Reference): Bytes
    requires 0 <= r.startPos <= r.endPos <= |contents|
  {
    ReplaceFirst(contents[r.startPos..r.endPos], r.ref, r.url)
  }

  /** The range mentions the reference k bytes in. */
  predicate Mentions(contents: Bytes, r: Reference, k: nat)
    requires 0 <= r.startPos <= r.endPos <= |contents|
  {
    r.startPos + k + |r.ref| <= r.endPos && contents[r.startPos + k..r.startPos + k + |r.ref|] == r.ref
  }

  lemma SliceOfSlice(s: Bytes, from: nat, to: nat, j: nat, n: nat)
    requires from <= to <= |s| && j + n <= to - from
    ensures s[from..to][j..j + n] == s[from + j..from + j + n]
  {
    var a, b := s[from..to][j..j + n], s[from + j..from + j + n];
    assert forall i :: 0 <= i < n ==> a[i] == s[from + j + i] == b[i];
  }

  /** Only the first mention of the reference is swapped for the URL; a range without one stays as it is. */
  lemma TagIs(contents: Bytes, r: Reference, k: nat)
    requires 0 <= r.startPos <= r.endPos <= |contents| && k <= r.endPos - r.startPos + 1
    requires k <= r.endPos - r.startPos ==> Mentions(contents, r, k)
    requires forall j: nat :: j < k ==> !Mentions(contents, r, j)
    ensures var range := contents[r.startPos..r.endPos];
      Tag(contents, r) == if k > |range| then range else range[..k] + r.url + range[k + |r.ref|..]
  {
    var range := contents[r.startPos..r.endPos];
    forall j: nat ensures OccursAt(range, r.ref, j) <==> Mentions(contents, r, j) {
      if j + |r.ref| <= |range| {
        SliceOfSlice(contents, r.startPos, r.endPos, j, |r.ref|);
      }
    }
  }

  /** asc lists the references whose range is known, each as often as it was given, in ascending order. */
  ghost predicate ListsKnown(contents: Bytes, refs: seq<Reference>, asc: seq<Reference>) {
    && Ascending(asc) && InBounds(contents, asc)
    && forall x: Reference :: multiset(asc)[x] == if x.endPos == 0 then 0 else multiset(refs)[x]
  }

  /** Each range starts where the one before it has ended. */
  ghost predicate Ascending(asc: seq<Reference>) {
    forall i, j :: 0 <= i < j < |asc| ==> asc[i].endPos <= asc[j].startPos
  }

  /** asc lists the ranges of `kept` in ascending order. */
  ghost predicate ListsAscending(contents: Bytes, kept: seq<Reference>, asc: seq<Reference>) {
    multiset(asc) == multiset(kept) && Ascending(asc) && InBounds(contents, asc)
  }

  /** The ranges, in ascending order, replaced all at once: gaps are copied, ranges become their tags. */
  function Simultaneous(contents: Bytes, asc: seq<Reference>, from: nat): Bytes
    requires InBounds(contents, asc) && Ascending(asc) && from <= |contents|
    requires asc != [] ==> from <= asc[0].startPos
  {
    if asc == [] then contents[from..]
    else
      contents[from..asc[0].startPos] + Tag(contents, asc[0]) + Simultaneous(contents, asc[1..], asc[0].endPos)
  }

  // ---------------------------------------------------------------- sorting

  /** What sort.Slice does with a comparison: insertion sort gives the same list. */
  function Insert<T>(le: (T, T) -> bool, x: T, xs: seq<T>): seq<T> {
    if xs == [] || le(x, xs[0]) then [x] + xs else [xs[0]] + Insert(le, x, xs[1..])
  }

  function Sort<T>(le: (T, T) -> bool, xs: seq<T>): seq<T> {
    if xs == [] then [] else Insert(le, xs[0], Sort(le, xs[1..]))
  }

  ghost predicate Total<T(!new)>(le: (T, T) -> bool) {
    && (forall x, y :: le(x, y) || le(y, x))
    && (forall x, y, z :: le(x, y) && le(y, z) ==> le(x, z))
  }

  ghost predicate SortedBy<T>(le: (T, T) -> bool, xs: seq<T>) {
    forall i, j :: 0 <= i < j < |xs| ==> le(xs[i], xs[j])
  }

  lemma {:induction false} InsertKeeps<T>(le: (T, T) -> bool, x: T, xs: seq<T>)
    ensures multiset(Insert(le, x, xs)) == multiset(xs) + multiset{x}
    ensures forall y :: y in Insert(le, x, xs) <==> y == x || y in xs
  {
    if !(xs == [] || le(x, xs[0])) {
      InsertKeeps(le, x, xs[1..]);
      assert xs == [xs[0]] + xs[1..];
    }
  }

  lemma {:induction false} InsertSorts<T(!new)>(le: (T, T) -> bool, x: T, xs: seq<T>)
    requires Total(le) && SortedBy(le, xs)
    ensures SortedBy(le, Insert(le, x, xs))
  {
    if xs == [] || le(x, xs[0]) {
      forall i | 0 <= i < |xs| ensures le(x, xs[i]) {
        assert le(xs[0], xs[0]) && le(xs[0], xs[i]);
      }
    } else {
      InsertSorts(le, x, xs[1..]);
      InsertKeeps(le, x, xs[1..]);
      SortedCons(le, xs[0], Insert(le, x, xs[1..]));
    }
  }

  lemma SortedCons<T>(le: (T, T) -> bool, x: T, xs: seq<T>)
    requires SortedBy(le, xs) && forall y :: y in xs ==> le(x, y)
    ensures SortedBy(le, [x] + xs)
  {
  }

  lemma {:induction false} SortSorts<T(!new)>(le: (T, T) -> bool, xs: seq<T>)
    requires Total(le)
    ensures SortedBy(le, Sort(le, xs)) && multiset(Sort(le, xs)) == multiset(xs)
  {
    if xs != [] {
      SortSorts(le, xs[1..]);
      InsertSorts(le, xs[0], Sort(le, xs[1..]));
      InsertKeeps(le, xs[0], Sort(le, xs[1..]));
      assert xs == [xs[0]] + xs[1..];
    }
  }

  /** Positions by byte; at one byte, starts come before ends. */
  predicate ByPosition(x: Pos, y: Pos) {
    x.at < y.at || (x.at == y.at && (!x.end || y.end))
  }

  predicate ByStartDescending(x: Reference, y: Reference) {
    x.startPos >= y.startPos
  }

  // ---------------------------------------------------------------- the sweep

  function PosList(reps: seq<Reference>): seq<Pos> {
    if reps == [] then []
    else
      var r := reps[|reps| - 1];
      PosList(reps[..|reps| - 1]) + [Pos(r.startPos, false), Pos(r.endPos - 1, true)]
  }

  /** Ranges opened minus ranges closed. */
  function Balance(ps: seq<Pos>): int {
    if ps == [] then 0 else Balance(ps[..|ps| - 1]) + if ps[|ps| - 1].end then -1 else 1
  }

  /** What a position contributes to the number of ranges that cover byte p. */
  function Weight1(x: Pos, p: int): int {
    if x.end then if x.at < p then -1 else 0 else if x.at <= p then 1 else 0
  }

  function Weight(ps: seq<Pos>, p: int): int {
    if ps == [] then 0 else Weight1(ps[0], p) + Weight(ps[1..], p)
  }

  function Coverage(reps: seq<Reference>, p: int): nat {
    if reps == [] then 0 else Coverage(reps[..|reps| - 1], p) + if Covers(reps[|reps| - 1], p) then 1 else 0
  }

  lemma {:induction false} WeightConcat(xs: seq<Pos>, ys: seq<Pos>, p: int)
    ensures Weight(xs + ys, p) == Weight(xs, p) + Weight(ys, p)
  {
    if xs == [] {
      assert xs + ys == ys;
    } else {
      assert (xs + ys)[1..] == xs[1..] + ys;
      WeightConcat(xs[1..], ys, p);
    }
  }

  lemma {:induction false} WeightOfInsert(x: Pos, xs: seq<Pos>, p: int)
    ensures Weight(Insert(ByPosition, x, xs), p) == Weight1(x, p) + Weight(xs, p)
  {
    if !(xs == [] || ByPosition(x, xs[0])) {
      WeightOfInsert(x, xs[1..], p);
    }
  }

  lemma {:induction false} WeightOfSort(xs: seq<Pos>, p: int)
    ensures Weight(Sort(ByPosition, xs), p) == Weight(xs, p)
  {
    if xs != [] {
      WeightOfSort(xs[1..], p);
      WeightOfInsert(xs[0], Sort(ByPosition, xs[1..]), p);
    }
  }

  lemma {:induction false} WeightIsCoverage(reps: seq<Reference>, p: int)
    requires AllNonEmpty(reps)
    ensures Weight(PosList(reps), p) == Coverage(reps, p)
  {
    if reps != [] {
      var front, r := reps[..|reps| - 1], reps[|reps| - 1];
      WeightIsCoverage(front, p);
      var two := [Pos(r.startPos, false), Pos(r.endPos - 1, true)];
      WeightConcat(PosList(front), two, p);
      WeightConcat([two[0]], [two[1]], p);
      assert two == [two[0]] + [two[1]];
      assert Weight([two[0]], p) == Weight1(two[0], p) + Weight([], p);
      assert Weight([two[1]], p) == Weight1(two[1], p) + Weight([], p);
    }
  }

  /** Up to byte p every position counts in full; behind it none closes a range. */
  lemma {:induction false} BalanceIsWeight(ps: seq<Pos>, p: int)
    requires forall i :: 0 <= i < |ps| ==> ByPosition(ps[i], Pos(p, false))
    ensures Balance(ps) == Weight(ps, p)
  {
    if ps != [] {
      var front, last := ps[..|ps| - 1], ps[|ps| - 1];
      BalanceIsWeight(front, p);
      WeightConcat(front, [last], p);
      assert ps == front + [last];
    }
  }

  lemma {:induction false} WeightBehind(ps: seq<Pos>, p: int)
    requires forall i :: 0 <= i < |ps| ==> ByPosition(Pos(p, false), ps[i])
    ensures Weight(ps, p) >= 0
    ensures (forall i :: 0 <= i < |ps| ==> !ByPosition(ps[i], Pos(p, false))) ==> Weight(ps, p) == 0
  {
    if ps != [] {
      WeightBehind(ps[1..], p);
    }
  }

  /** When the sweep sees two ranges open, byte p of the start just read is covered twice. */
  lemma {:induction false} OpenMeansCovered(sorted: seq<Pos>, k: nat)
    requires SortedBy(ByPosition, sorted) && k < |sorted| && !sorted[k].end
    ensures Balance(sorted[..k + 1]) <= Weight(sorted, sorted[k].at)
  {
    var p := sorted[k].at;
    assert sorted[k] == Pos(p, false);
    BalanceIsWeight(sorted[..k + 1], p);
    WeightBehind(sorted[k + 1..], p);
    WeightConcat(sorted[..k + 1], sorted[k + 1..], p);
    assert sorted[..k + 1] + sorted[k + 1..] == sorted;
  }

  /** The sweep sees every byte's coverage at some point. */
  lemma CoveredMeansOpen(sorted: seq<Pos>, p: int) returns (k: nat)
    requires SortedBy(ByPosition, sorted)
    ensures k <= |sorted| && Balance(sorted[..k]) == Weight(sorted, p)
  {
    k := 0;
    while k < |sorted| && ByPosition(sorted[k], Pos(p, false))
      invariant k <= |sorted|
      invariant forall i :: 0 <= i < k ==> ByPosition(sorted[i], Pos(p, false))
    {
      k := k + 1;
    }
    BalanceIsWeight(sorted[..k], p);
    WeightBehind(sorted[k..], p);
    WeightConcat(sorted[..k], sorted[k..], p);
    assert sorted[..k] + sorted[k..] == sorted;
  }

  lemma {:induction false} CoverageCounts(reps: seq<Reference>, p: int)
    ensures Coverage(reps, p) >= 1 <==> exists i :: 0 <= i < |reps| && Covers(reps[i], p)
    ensures Coverage(reps, p) >= 2 <==> CoveredTwice(reps, p)
  {
    if reps != [] {
      var front, n := reps[..|reps| - 1], |reps| - 1;
      CoverageCounts(front, p);
      assert forall i :: 0 <= i < n ==> front[i] == reps[i];
      if Coverage(reps, p) >= 1 && !Covers(reps[n], p) {
        var i :| 0 <= i < |front| && Covers(front[i], p);
        assert Covers(reps[i], p);
      }
      if CoveredTwice(front, p) || Coverage(reps, p) >= 2 {
        if CoveredTwice(front, p) {
          var i, j :| 0 <= i < j < |front| && Covers(front[i], p) && Covers(front[j], p);
          assert Covers(reps[i], p) && Covers(reps[j], p);
        } else {
          var i :| 0 <= i < |front| && Covers(front[i], p);
          assert Covers(reps[i], p) && Covers(reps[n], p);
        }
      }
    }
  }

  /** After reading the start at position k of the sorted list, more than one range is open. */
  predicate TwoOpen(sorted: seq<Pos>, k: nat) {
    k < |sorted| && !sorted[k].end && Balance(sorted[..k + 1]) > 1
  }

  lemma SortedWeight(reps: seq<Reference>, p: int)
    requires AllNonEmpty(reps)
    ensures Weight(Sort(ByPosition, PosList(reps)), p) == Coverage(reps, p)
    ensures Coverage(reps, p) >= 2 <==> CoveredTwice(reps, p)
  {
    WeightOfSort(PosList(reps), p);
    WeightIsCoverage(reps, p);
    CoverageCounts(reps, p);
  }

  lemma SortedPositions(ps: seq<Pos>)
    ensures SortedBy(ByPosition, Sort(ByPosition, ps))
  {
    SortSorts(ByPosition, ps);
  }

  ghost predicate EverTwoOpen(sorted: seq<Pos>) {
    exists k: nat :: TwoOpen(sorted, k)
  }

  /** Two ranges share a byte exactly when the sweep has two ranges open at some point. */
  lemma SweepIsExact(reps: seq<Reference>)
    requires AllNonEmpty(reps)
    ensures Overlapping(reps) <==> EverTwoOpen(Sort(ByPosition, PosList(reps)))
  {
    var sorted := Sort(ByPosition, PosList(reps));
    SortedPositions(PosList(reps));
    if Overlapping(reps) {
      var p :| CoveredTwice(reps, p);
      SortedWeight(reps, p);
      var k := CoveredMeansOpen(sorted, p);
      var m := OpenedAt(sorted, k);
      assert TwoOpen(sorted, m);
    }
    if EverTwoOpen(sorted) {
      var k: nat :| TwoOpen(sorted, k);
      OpenMeansCovered(sorted, k);
      SortedWeight(reps, sorted[k].at);
    }
  }

  /** The balance first rises above one at a start. */
  lemma {:induction false} OpenedAt(sorted: seq<Pos>, k: nat) returns (m: nat)
    requires k <= |sorted| && Balance(sorted[..k]) > 1
    ensures TwoOpen(sorted, m)
  {
    assert k > 0 && sorted[..k][..k - 1] == sorted[..k - 1];
    if sorted[k - 1].end {
      m := OpenedAt(sorted, k - 1);
    } else {
      m := k - 1;
    }
  }

  /** The first known range that is empty. */
  ghost predicate FirstEmpty(refs: seq<Reference>, i: int) {
    && 0 <= i < |refs| && refs[i].endPos != 0 && refs[i].startPos >= refs[i].endPos
    && forall j :: 0 <= j < i && refs[j].endPos != 0 ==> refs[j].startPos < refs[j].endPos
  }

  /** The first loop of convertMarkdownReferences: skip unknown ranges, refuse empty ones, list starts and ends. */
  method Collect(refs: seq<Reference>) returns (r: Result<seq<Reference>, Error>, posList: seq<Pos>)
    ensures r.Ok? ==> r.value == Kept(refs) && AllNonEmpty(r.value) && posList == PosList(r.value)
    ensures r.Err? ==>
              !AllNonEmpty(Kept(refs)) && exists i :: FirstEmpty(refs, i) && r.error == InvalidRange(refs[i].ref)
  {
    var reps := [];
    posList := [];
    for i := 0 to |refs|
      invariant reps == Kept(refs[..i]) && posList == PosList(reps) && AllNonEmpty(reps)
      invariant forall j :: 0 <= j < i && refs[j].endPos != 0 ==> refs[j].startPos < refs[j].endPos
    {
      assert refs[..i + 1][..i] == refs[..i];
      if refs[i].endPos == 0 {
        continue;
      }
      assert Kept(refs[..i + 1]) == reps + [refs[i]];
      if refs[i].startPos >= refs[i].endPos {
        KeptPrefix(refs, i + 1);
        assert !NonEmpty(Kept(refs)[|reps|]);
        assert FirstEmpty(refs, i);
        return Err(InvalidRange(refs[i].ref)), [];
      }
      assert (reps + [refs[i]])[..|reps|] == reps;
      posList := posList + [Pos(refs[i].startPos, false), Pos(refs[i].endPos - 1, true)];
      reps := reps + [refs[i]];
    }
    assert refs[..|refs|] == refs;
    return Ok(reps), posList;
  }

  /** The sweep over the sorted positions. */
  method Sweep(posList: seq<Pos>) returns (overlap: Option<Error>)
    ensures overlap.Some? <==> EverTwoOpen(posList)
    ensures overlap.Some? ==>
              exists k: nat ::
                && TwoOpen(posList, k) && (forall m: nat :: m < k ==> !TwoOpen(posList, m))
                && overlap.value == OverlappingRange(if k == 0 then 0 else posList[k - 1].at, posList[k].at)
  {
    var lastPos, open := 0, 0;
    for k := 0 to |posList|
      invariant open == Balance(posList[..k]) <= 1
      invariant forall m: nat :: m < k ==> !TwoOpen(posList, m)
      invariant lastPos == if k == 0 then 0 else posList[k - 1].at
    {
      assert posList[..k + 1][..k] == posList[..k];
      var p := posList[k];
      if p.end {
        open := open - 1;
      } else {
        open := open + 1;
      }
      if open > 1 {
        assert TwoOpen(posList, k);
        return Some(OverlappingRange(lastPos, p.at));
      }
      lastPos := p.at;
    }
    return None;
  }

  /** convertMarkdownReferences: the kept references, or an error exactly for an empty or overlapping range. */
  method ConvertReferences(refs: seq<Reference>) returns (r: Result<seq<Reference>, Error>)
    ensures match r
            case Ok(reps) => reps == Kept(refs) && AllNonEmpty(reps) && !Overlapping(reps)
            case Err(InvalidRange(ref)) =>
              !AllNonEmpty(Kept(refs)) && exists i :: FirstEmpty(refs, i) && ref == refs[i].ref
            case Err(OverlappingRange(_, _)) => AllNonEmpty(Kept(refs)) && Overlapping(Kept(refs))
  {
    var posList;
    r, posList := Collect(refs);
    if r.Ok? {
      var reps := r.value;
      SweepIsExact(reps);
      var overlap := Sweep(Sort(ByPosition, posList));
      if overlap.Some? {
        assert Overlapping(reps);
        return Err(overlap.value);
      }
    }
  }

  /** A reference is kept exactly when it is given and its range is known. */
  lemma KeptMembers(refs: seq<Reference>, r: Reference)
    ensures r in Kept(refs) <==> r in refs && r.endPos != 0
  {
    KeptCount(refs, r);
    assert r in Kept(refs) <==> multiset(Kept(refs))[r] > 0;
    assert r in refs <==> multiset(refs)[r] > 0;
  }

  /** The kept references are empty or out of bounds exactly when a known one is. */
  lemma KeptRanges(contents: Bytes, refs: seq<Reference>)
    ensures AllNonEmpty(Kept(refs)) <==> forall x :: x in refs && x.endPos != 0 ==> x.startPos < x.endPos
    ensures InBounds(contents, Kept(refs)) <==>
            forall x :: x in refs && x.endPos != 0 ==> 0 <= x.startPos <= x.endPos <= |contents|
  {
    forall x: Reference ensures x in Kept(refs) <==> x in refs && x.endPos != 0 {
      KeptMembers(refs, x);
    }
    MembersNonEmpty(Kept(refs));
    MembersInBounds(contents, Kept(refs));
  }

  lemma MembersNonEmpty(reps: seq<Reference>)
    ensures AllNonEmpty(reps) <==> forall x :: x in reps ==> x.startPos < x.endPos
  {
    if AllNonEmpty(reps) {
      forall x | x in reps ensures x.startPos < x.endPos {
        var i :| 0 <= i < |reps| && reps[i] == x;
        assert NonEmpty(reps[i]);
      }
    }
  }

  lemma MembersInBounds(contents: Bytes, reps: seq<Reference>)
    ensures InBounds(contents, reps) <==> forall x :: x in reps ==> 0 <= x.startPos <= x.endPos <= |contents|
  {
  }

  lemma KeptOverlap(refs: seq<Reference>, at: seq<nat>, p: int)
    requires Picks(refs, at, Kept(refs)) && forall i: nat :: i in at <==> i < |refs| && refs[i].endPos != 0
    requires CoveredTwice(Kept(refs), p)
    ensures exists i, j :: 0 <= i < j < |refs| && SharedBy(refs[i], refs[j], p)
  {
    var kept := Kept(refs);
    var i, j :| 0 <= i < j < |kept| && Covers(kept[i], p) && Covers(kept[j], p);
    assert at[i] in at && at[j] in at;
    assert SharedBy(refs[at[i]], refs[at[j]], p);
  }

  lemma SharedAreKept(refs: seq<Reference>, at: seq<nat>, i: nat, j: nat, p: int)
    requires Picks(refs, at, Kept(refs)) && forall i: nat :: i in at <==> i < |refs| && refs[i].endPos != 0
    requires i < j < |refs| && SharedBy(refs[i], refs[j], p)
    ensures CoveredTwice(Kept(refs), p)
  {
    var kept := Kept(refs);
    var q, q' := PositionIn(at, i), PositionIn(at, j);
    assert q' < q ==> at[q'] < at[q];
    assert kept[q] == refs[i] && kept[q'] == refs[j];
    assert Covers(kept[q], p) && Covers(kept[q'], p);
  }

  function PositionIn(at: seq<nat>, i: nat): (q: nat)
    requires i in at
    ensures q < |at| && at[q] == i
  {
    if at[0] == i then 0 else 1 + PositionIn(at[1..], i)
  }

  /** Two of them share a byte exactly when two known ones do. */
  lemma KeptShare(refs: seq<Reference>)
    ensures Overlapping(Kept(refs)) <==> exists i, j, p :: 0 <= i < j < |refs| && SharedBy(refs[i], refs[j], p)
  {
    var at := KeptAt(refs);
    if Overlapping(Kept(refs)) {
      var p :| CoveredTwice(Kept(refs), p);
      KeptOverlap(refs, at, p);
    }
    if i, j, p :| 0 <= i < j < |refs| && SharedBy(refs[i], refs[j], p) {
      SharedAreKept(refs, at, i, j, p);
    }
  }

  lemma {:induction false} KeptPrefix(refs: seq<Reference>, i: nat)
    requires i <= |refs|
    ensures Kept(refs[..i]) <= Kept(refs)
  {
    if i < |refs| {
      assert refs[..|refs| - 1][..i] == refs[..i];
      KeptPrefix(refs[..|refs| - 1], i);
    } else {
      assert refs[..i] == refs;
    }
  }

  // ---------------------------------------------------------------- splicing

  /** Where the untouched part ends when the ranges in `done` (descending) have been replaced. */
  function Boundary(contents: Bytes, done: seq<Reference>): int {
    if done == [] then |contents| else done[|done| - 1].startPos
  }

  ghost predicate Descending(desc: seq<Reference>) {
    forall i, j :: 0 <= i < j < |desc| ==> desc[j].endPos <= desc[i].startPos
  }

  /** The text from the boundary on, after the ranges in `done` have been replaced. */
  function Replaced(contents: Bytes, done: seq<Reference>): Bytes
    requires InBounds(contents, done) && Descending(done)
  {
    if done == [] then []
    else
      var front, r := done[..|done| - 1], done[|done| - 1];
      Tag(contents, r) + contents[r.endPos..Boundary(contents, front)] + Replaced(contents, front)
  }

  function Reverse<T>(xs: seq<T>): (ys: seq<T>)
    ensures |ys| == |xs| && forall i :: 0 <= i < |xs| ==> ys[i] == xs[|xs| - 1 - i]
  {
    seq(|xs|, i requires 0 <= i < |xs| => xs[|xs| - 1 - i])
  }

  /** The front of an ascending list, spelled out. */
  lemma SimultaneousFirst(contents: Bytes, r: Reference, asc: seq<Reference>, from: nat)
    requires InBounds(contents, [r] + asc) && Ascending([r] + asc) && from <= r.startPos
    ensures 0 <= r.startPos <= r.endPos <= |contents|
    ensures InBounds(contents, asc) && Ascending(asc) && (asc != [] ==> r.endPos <= asc[0].startPos)
    ensures Simultaneous(contents, [r] + asc, from) ==
            contents[from..r.startPos] + Tag(contents, r) + Simultaneous(contents, asc, r.endPos)
  {
    var all := [r] + asc;
    assert all[1..] == asc && all[0] == r;
    assert forall i :: 0 <= i < |asc| ==> asc[i] == all[i + 1];
  }

  lemma {:induction false} ReplacedIsSimultaneous(contents: Bytes, done: seq<Reference>, from: nat)
    requires InBounds(contents, done) && Descending(done)
    requires from <= Boundary(contents, done) <= |contents|
    ensures Ascending(Reverse(done)) && InBounds(contents, Reverse(done))
    ensures Simultaneous(contents, Reverse(done), from) ==
            contents[from..Boundary(contents, done)] + Replaced(contents, done)
  {
    if done == [] {
      assert Reverse(done) == [];
    } else {
      var front, r := done[..|done| - 1], done[|done| - 1];
      assert Reverse(done) == [r] + Reverse(front);
      FrontOfDescending(contents, done);
      ReplacedIsSimultaneous(contents, front, r.endPos);
      SimultaneousFirst(contents, r, Reverse(front), from);
      var b := Boundary(contents, front);
      Regroup(contents[from..r.startPos], Tag(contents, r), contents[r.endPos..b], Replaced(contents, front));
    }
  }

  lemma Regroup(a: Bytes, b: Bytes, c: Bytes, d: Bytes)
    ensures a + b + (c + d) == a + (b + c + d)
  {
  }

  lemma FrontOfDescending(contents: Bytes, done: seq<Reference>)
    requires done != [] && InBounds(contents, done) && Descending(done)
    ensures InBounds(contents, done[..|done| - 1]) && Descending(done[..|done| - 1])
    ensures done[|done| - 1].endPos <= Boundary(contents, done[..|done| - 1]) <= |contents|
  {
  }

  lemma TailElements<T>(xs: seq<T>)
    requires xs != []
    ensures multiset(xs[1..]) == multiset(xs) - multiset{xs[0]} && xs == [xs[0]] + xs[1..]
  {
    assert xs == [xs[0]] + xs[1..];
  }

  lemma HeadsAgree(xs: seq<Reference>, ys: seq<Reference>)
    requires Ascending(xs) && Ascending(ys) && AllNonEmpty(xs) && AllNonEmpty(ys) && multiset(xs) == multiset(ys)
    requires xs != [] && ys != []
    ensures xs[0] == ys[0]
  {
    assert xs[0] in multiset(ys) && ys[0] in multiset(xs);
  }

  lemma TailsAscend(xs: seq<Reference>)
    requires xs != [] && Ascending(xs) && AllNonEmpty(xs)
    ensures Ascending(xs[1..]) && AllNonEmpty(xs[1..])
  {
  }

  /** Two ascending listings of the same ranges are the same list. */
  lemma {:induction false} AscendingIsUnique(xs: seq<Reference>, ys: seq<Reference>)
    requires Ascending(xs) && Ascending(ys) && AllNonEmpty(xs) && AllNonEmpty(ys) && multiset(xs) == multiset(ys)
    ensures xs == ys
  {
    assert |multiset(xs)| == |xs| && |multiset(ys)| == |ys|;
    if xs != [] {
      HeadsAgree(xs, ys);
      TailElements(xs);
      TailElements(ys);
      TailsAscend(xs);
      TailsAscend(ys);
      AscendingIsUnique(xs[1..], ys[1..]);
    }
  }

  lemma {:induction false} CoverageConcat(xs: seq<Reference>, ys: seq<Reference>, p: int)
    ensures Coverage(xs + ys, p) == Coverage(xs, p) + Coverage(ys, p)
  {
    if ys == [] {
      assert xs + ys == xs;
    } else {
      assert (xs + ys)[..|xs + ys| - 1] == xs + ys[..|ys| - 1];
      CoverageConcat(xs, ys[..|ys| - 1], p);
    }
  }

  lemma {:induction false} CoverageOfInsert(x: Reference, xs: seq<Reference>, p: int)
    ensures Coverage(Insert(ByStartDescending, x, xs), p) == Coverage([x], p) + Coverage(xs, p)
  {
    if xs == [] || ByStartDescending(x, xs[0]) {
      CoverageConcat([x], xs, p);
    } else {
      CoverageOfInsert(x, xs[1..], p);
      CoverageConcat([xs[0]], xs[1..], p);
      CoverageConcat([xs[0]], Insert(ByStartDescending, x, xs[1..]), p);
      assert xs == [xs[0]] + xs[1..];
    }
  }

  lemma {:induction false} CoverageOfSort(xs: seq<Reference>, p: int)
    ensures Coverage(Sort(ByStartDescending, xs), p) == Coverage(xs, p)
  {
    if xs != [] {
      CoverageOfSort(xs[1..], p);
      CoverageOfInsert(xs[0], Sort(ByStartDescending, xs[1..]), p);
      CoverageConcat([xs[0]], xs[1..], p);
      assert xs == [xs[0]] + xs[1..];
    }
  }

  /** Ranges that share no byte, sorted by descending start, stand one before the other. */
  lemma SortedIsDescending(contents: Bytes, reps: seq<Reference>)
    requires AllNonEmpty(reps) && !Overlapping(reps) && InBounds(contents, reps)
    ensures var desc := Sort(ByStartDescending, reps);
      multiset(desc) == multiset(reps) && Descending(desc) && InBounds(contents, desc) && AllNonEmpty(desc)
  {
    var desc := Sort(ByStartDescending, reps);
    SortSorts(ByStartDescending, reps);
    forall i | 0 <= i < |desc| ensures desc[i] in reps {
      assert desc[i] in multiset(desc);
    }
    forall i, j | 0 <= i < j < |desc| ensures desc[j].endPos <= desc[i].startPos {
      assert ByStartDescending(desc[i], desc[j]);
      if desc[i].startPos < desc[j].endPos {
        var p := desc[i].startPos;
        assert Covers(desc[i], p) && Covers(desc[j], p);
        CoverageCounts(desc, p);
        CoverageOfSort(reps, p);
        CoverageCounts(reps, p);
      }
    }
  }

  /** The text with the ranges `done` replaced and everything left of them still as it was. */
  function Spliced(contents: Bytes, done: seq<Reference>): Bytes
    requires InBounds(contents, done) && Descending(done)
  {
    contents[..Boundary(contents, done)] + Replaced(contents, done)
  }

  lemma SliceLeft(contents: Bytes, b: nat, rest: Bytes, s: nat, e: nat)
    requires s <= e <= b <= |contents|
    ensures var now := contents[..b] + rest;
      now[..s] == contents[..s] && now[s..e] == contents[s..e] && now[e..] == contents[e..b] + rest
  {
  }

  /** One splice further left: the slice still reads original bytes, and only they change. */
  lemma SpliceStep(contents: Bytes, done: seq<Reference>, r: Reference)
    requires InBounds(contents, done + [r]) && Descending(done + [r])
    ensures InBounds(contents, done) && Descending(done)
    ensures 0 <= r.startPos <= r.endPos <= |contents|
    ensures var now := Spliced(contents, done);
      && r.endPos <= |now|
      && now[r.startPos..r.endPos] == contents[r.startPos..r.endPos]
      && now[..r.startPos] + Tag(contents, r) + now[r.endPos..] == Spliced(contents, done + [r])
  {
    var all := done + [r];
    assert all[|done|] == r && all[..|all| - 1] == done;
    FrontOfDescending(contents, all);
    var b := Boundary(contents, done);
    SliceLeft(contents, b, Replaced(contents, done), r.startPos, r.endPos);
    assert Replaced(contents, all) == Tag(contents, r) + contents[r.endPos..b] + Replaced(contents, done);
  }

  /** The splice loop over ranges sorted by descending start; no index is ever out of bounds. */
  method Splice(contents: Bytes, desc: seq<Reference>) returns (text: Bytes)
    requires InBounds(contents, desc) && Descending(desc)
    ensures text == Spliced(contents, desc)
  {
    text := contents;
    for i := 0 to |desc|
      invariant InBounds(contents, desc[..i]) && Descending(desc[..i])
      invariant text == Spliced(contents, desc[..i])
    {
      var ir := desc[i];
      assert desc[..i + 1] == desc[..i] + [ir];
      SpliceStep(contents, desc[..i], ir);
      var literalTag := text[ir.startPos..ir.endPos];
      var replacedTag := ReplaceFirst(literalTag, ir.ref, ir.url);
      text := text[..ir.startPos] + replacedTag + text[ir.endPos..];
    }
    assert desc[..|desc|] == desc;
  }

  /**
   replaceMarkdownImages. The splices go from right to left in place; the text they leave is the
   simultaneous substitution of all ranges, however the references were listed.
   */
  method ReplaceImages(contents: Bytes, refs: seq<Reference>) returns (r: Result<Bytes, Error>)
    requires forall x :: x in refs && x.endPos != 0 ==> 0 <= x.startPos <= x.endPos <= |contents|
    ensures r.Ok? <==>
              && (forall x :: x in refs && x.endPos != 0 ==> x.startPos < x.endPos)
              && !(exists i, j, p :: 0 <= i < j < |refs| && SharedBy(refs[i], refs[j], p))
    ensures r.Ok? ==> exists asc :: ListsKnown(contents, refs, asc)
    ensures r.Ok? ==> forall asc :: ListsKnown(contents, refs, asc) ==> r.value == Simultaneous(contents, asc, 0)
  {
    KeptRanges(contents, refs);
    KeptShare(refs);
    var converted := ConvertReferences(refs);
    if converted.Err? {
      return Err(converted.error);
    }
    SortedIsDescending(contents, converted.value);
    var reps := Sort(ByStartDescending, converted.value);
    var text := Splice(contents, reps);
    SplicedIsSimultaneous(contents, Kept(refs), reps);
    forall asc ensures ListsKnown(contents, refs, asc) <==> ListsAscending(contents, Kept(refs), asc) {
      ListsAgree(contents, refs, asc);
    }
    return Ok(text);
  }

  lemma ListsAgree(contents: Bytes, refs: seq<Reference>, asc: seq<Reference>)
    ensures ListsKnown(contents, refs, asc) <==> ListsAscending(contents, Kept(refs), asc)
  {
    forall x: Reference ensures multiset(Kept(refs))[x] == if x.endPos == 0 then 0 else multiset(refs)[x] {
      KeptCount(refs, x);
    }
    if ListsKnown(contents, refs, asc) {
      assert multiset(asc) == multiset(Kept(refs));
    }
  }

  lemma SplicedIsSimultaneous(contents: Bytes, kept: seq<Reference>, desc: seq<Reference>)
    requires multiset(desc) == multiset(kept) && AllNonEmpty(desc) && Descending(desc) && InBounds(contents, desc)
    ensures exists asc :: ListsAscending(contents, kept, asc)
    ensures forall asc :: ListsAscending(contents, kept, asc) ==>
              Spliced(contents, desc) == Simultaneous(contents, asc, 0)
  {
    ReplacedIsSimultaneous(contents, desc, 0);
    ReverseKeepsElements(desc);
    assert ListsAscending(contents, kept, Reverse(desc));
    forall asc | ListsAscending(contents, kept, asc)
      ensures Spliced(contents, desc) == Simultaneous(contents, asc, 0)
    {
      forall i | 0 <= i < |asc| ensures NonEmpty(asc[i]) {
        assert asc[i] in multiset(desc);
      }
      AscendingIsUnique(asc, Reverse(desc));
    }
  }

  lemma {:induction false} ReverseKeepsElements<T>(xs: seq<T>)
    ensures multiset(Reverse(xs)) == multiset(xs)
  {
    if xs == [] {
      assert Reverse(xs) == [];
    } else {
      var front := xs[..|xs| - 1];
      ReverseKeepsElements(front);
      assert Reverse(xs) == [xs[|xs| - 1]] + Reverse(front);
      assert xs == front + [xs[|xs| - 1]];
    }
  }
}
