/** Names of journal segments: how one is chosen, and why sorting them as text gives creation order. */
module SegmentNames {
  import opened Collections
  import opened Sorting
  import opened Text
  import opened TimeFormat

  function StampText(instant: int): string {
    Squeeze(FormatRfc3339(instant), 15) + "Z"
  }

  /** prefix-stamp-counter, then the extension; the counter always has three digits. */
  function NumberedName(prefix: string, stamp: string, counter: nat, extension: string): string {
    prefix + ("-" + (stamp + ("-" + (Padded(counter, 3) + extension))))
  }

  function SegmentName(prefix: string, instant: int, counter: nat, extension: string): string {
    NumberedName(prefix, StampText(instant), counter, extension)
  }

  /** The first counter from `from` on whose name is unused, or 999 when none is. */
  function FreeCounter(prefix: string, stamp: string, extension: string, existing: set<string>, from: nat): (counter: nat)
    requires from < 1000
    ensures from <= counter < 1000
    ensures forall k :: from <= k < counter ==> NumberedName(prefix, stamp, k, extension) in existing
    ensures NumberedName(prefix, stamp, counter, extension) !in existing
            || (counter == 999 && forall k :: from <= k < 1000 ==> NumberedName(prefix, stamp, k, extension) in existing)
    decreases 1000 - from
  {
    if NumberedName(prefix, stamp, from, extension) !in existing || from == 999 then from
    else FreeCounter(prefix, stamp, extension, existing, from + 1)
  }

  function ChosenName(prefix: string, instant: int, extension: string, existing: set<string>): string {
    NumberedName(prefix, StampText(instant), FreeCounter(prefix, StampText(instant), extension, existing, 0), extension)
  }

  /** The naming loop: try counters in turn while the name exists and there are counters left. */
  method ChooseNumber(prefix: string, stamp: string, extension: string, existing: set<string>) returns (candidate: string)
    ensures candidate == NumberedName(prefix, stamp, FreeCounter(prefix, stamp, extension, existing, 0), extension)
  {
    var counter := 0;
    candidate := NumberedName(prefix, stamp, 0, extension);
    while true
      invariant counter < 1000
      invariant FreeCounter(prefix, stamp, extension, existing, 0) == FreeCounter(prefix, stamp, extension, existing, counter)
      decreases 1000 - counter
    {
      candidate := prefix + ("-" + (stamp + ("-" + (Padded(counter, 3) + extension))));
      if candidate !in existing || counter + 1 >= 1000 {
        return;
      }
      counter := counter + 1;
    }
  }

  method ChooseName(prefix: string, instant: int, extension: string, existing: set<string>) returns (candidate: string)
    ensures candidate == ChosenName(prefix, instant, extension, existing)
  {
    var stamp := SegmentStamp(instant);
    candidate := ChooseNumber(prefix, stamp, extension, existing);
  }

  ghost predicate Free(prefix: string, stamp: string, extension: string, existing: set<string>) {
    exists k :: 0 <= k < 1000 && NumberedName(prefix, stamp, k, extension) !in existing
  }

  /** Some counter is still free: fewer than 1000 segments carry this stamp. */
  ghost predicate HasRoom(prefix: string, instant: int, extension: string, existing: set<string>) {
    Free(prefix, StampText(instant), extension, existing)
  }

  lemma FreeByCount(prefix: string, stamp: string, extension: string, existing: set<string>)
    requires |set k | 0 <= k < 1000 && NumberedName(prefix, stamp, k, extension) in existing| < 1000
    ensures Free(prefix, stamp, extension, existing)
  {
    var used := set k | 0 <= k < 1000 && NumberedName(prefix, stamp, k, extension) in existing;
    if !Free(prefix, stamp, extension, existing) {
      forall k | k in Naturals(1000) ensures k in used {}
      SubsetCount(Naturals(1000), used);
    }
  }

  lemma RoomByCount(prefix: string, instant: int, extension: string, existing: set<string>)
    requires |set k | 0 <= k < 1000 && SegmentName(prefix, instant, k, extension) in existing| < 1000
    ensures HasRoom(prefix, instant, extension, existing)
  {
    assert (set k | 0 <= k < 1000 && SegmentName(prefix, instant, k, extension) in existing)
        == (set k | 0 <= k < 1000 && NumberedName(prefix, StampText(instant), k, extension) in existing);
    FreeByCount(prefix, StampText(instant), extension, existing);
  }

  ghost function Naturals(n: nat): (s: set<int>)
    ensures |s| == n
    ensures forall k :: k in s <==> 0 <= k < n
  {
    if n == 0 then {} else Naturals(n - 1) + {n - 1}
  }

  lemma NumberFreshIff(prefix: string, stamp: string, extension: string, existing: set<string>)
    ensures NumberedName(prefix, stamp, FreeCounter(prefix, stamp, extension, existing, 0), extension) !in existing
            <==> Free(prefix, stamp, extension, existing)
    ensures !Free(prefix, stamp, extension, existing) ==> FreeCounter(prefix, stamp, extension, existing, 0) == 999
  {}

  /** The chosen name is new exactly when some counter is still free. */
  lemma FreshIff(prefix: string, instant: int, extension: string, existing: set<string>)
    ensures ChosenName(prefix, instant, extension, existing) !in existing <==> HasRoom(prefix, instant, extension, existing)
  {
    NumberFreshIff(prefix, StampText(instant), extension, existing);
  }

  /** When all 1000 names of a second are taken, the last one is chosen again. */
  lemma LastNameReused(prefix: string, instant: int, extension: string, existing: set<string>)
    requires !HasRoom(prefix, instant, extension, existing)
    ensures ChosenName(prefix, instant, extension, existing) == SegmentName(prefix, instant, 999, extension)
    ensures SegmentName(prefix, instant, 999, extension) in existing
  {
    NumberFreshIff(prefix, StampText(instant), extension, existing);
  }

  lemma CounterOrder(prefix: string, stamp: string, c: nat, d: nat, extension: string)
    requires c < d < 1000
    ensures Before(NumberedName(prefix, stamp, c, extension), NumberedName(prefix, stamp, d, extension))
  {
    assert Pow10(3) == 1000 by { assert Pow10(3) == 10 * Pow10(2); }
    PaddedOrder(c, d, 3);
    var x, y := Padded(c, 3) + extension, Padded(d, 3) + extension;
    BeforeConcat(Padded(c, 3), extension, Padded(d, 3), extension);
    BeforeConcat("-", x, "-", y);
    BeforeConcat(stamp, "-" + x, stamp, "-" + y);
    BeforeConcat("-", stamp + ("-" + x), "-", stamp + ("-" + y));
    BeforeConcat(prefix, "-" + (stamp + ("-" + x)), prefix, "-" + (stamp + ("-" + y)));
  }

  lemma StampDecides(prefix: string, s: string, t: string, c: nat, d: nat, extension: string)
    requires |s| == |t| && Before(s, t)
    ensures Before(NumberedName(prefix, s, c, extension), NumberedName(prefix, t, d, extension))
  {
    var x, y := "-" + (Padded(c, 3) + extension), "-" + (Padded(d, 3) + extension);
    BeforeConcat(s, x, t, y);
    BeforeConcat("-", s + x, "-", t + y);
    BeforeConcat(prefix, "-" + (s + x), prefix, "-" + (t + y));
  }

  lemma NextNumberLater(prefix: string, extension: string, s: string, c: nat, t: string, existing: set<string>)
    requires |s| == |t| && (s == t || Before(s, t)) && c < 1000
    requires forall k :: 0 <= k <= c ==> NumberedName(prefix, s, k, extension) in existing
    requires Free(prefix, t, extension, existing)
    ensures Before(NumberedName(prefix, s, c, extension),
                   NumberedName(prefix, t, FreeCounter(prefix, t, extension, existing, 0), extension))
  {
    var d := FreeCounter(prefix, t, extension, existing, 0);
    if s == t {
      NumberFreshIff(prefix, t, extension, existing);
      CounterOrder(prefix, t, c, d, extension);
    } else {
      StampDecides(prefix, s, t, c, d, extension);
    }
  }

  /** The name chosen no earlier, in a directory that kept what was there, sorts after the previous one. */
  lemma NextNameLater(prefix: string, extension: string, s: int, c: nat, t: int, existing: set<string>)
    requires FourDigitYear(s) && FourDigitYear(t) && s <= t && c < 1000
    requires forall k :: 0 <= k <= c ==> SegmentName(prefix, s, k, extension) in existing
    requires HasRoom(prefix, t, extension, existing)
    ensures Before(SegmentName(prefix, s, c, extension), ChosenName(prefix, t, extension, existing))
  {
    StampOrder(s, t);
    StampIsCompact(s);
    StampIsCompact(t);
    forall k | 0 <= k <= c ensures NumberedName(prefix, StampText(s), k, extension) in existing {
      assert SegmentName(prefix, s, k, extension) in existing;
    }
    NextNumberLater(prefix, extension, StampText(s), c, StampText(t), existing);
  }

  // ---- listing a directory ----

  predicate PartAt(text: string, part: string, i: nat) {
    i + |part| <= |text| && text[i..i + |part|] == part
  }

  predicate Contains(text: string, part: string) {
    exists i :: 0 <= i <= |text| && PartAt(text, part, i)
  }

  predicate LooksLikeSegment(name: string, prefix: string) {
    Contains(name, ".jsonl") && prefix <= name
  }

  lemma ContainsRight(a: string, b: string, part: string)
    requires Contains(b, part)
    ensures Contains(a + b, part)
  {
    var i :| 0 <= i <= |b| && PartAt(b, part, i);
    assert (a + b)[|a| + i..|a| + i + |part|] == b[i..i + |part|];
    assert PartAt(a + b, part, |a| + i);
  }

  /** The writer's own names pass the filter. */
  lemma OwnNameListed(prefix: string, instant: int, counter: nat, extension: string)
    requires ".jsonl" <= extension
    ensures LooksLikeSegment(SegmentName(prefix, instant, counter, extension), prefix)
  {
    assert PartAt(extension, ".jsonl", 0);
    var numbered := Padded(counter, 3) + extension;
    ContainsRight(Padded(counter, 3), extension, ".jsonl");
    ContainsRight("-", numbered, ".jsonl");
    ContainsRight(StampText(instant), "-" + numbered, ".jsonl");
    ContainsRight("-", StampText(instant) + ("-" + numbered), ".jsonl");
    ContainsRight(prefix, "-" + (StampText(instant) + ("-" + numbered)), ".jsonl");
  }

  lemma {:induction false} AllListed(entries: seq<string>, prefix: string)
    requires forall i :: 0 <= i < |entries| ==> LooksLikeSegment(entries[i], prefix)
    ensures Candidates(entries, prefix) == entries
  {
    if entries != [] {
      var n := |entries| - 1;
      AllListed(entries[..n], prefix);
      assert entries == entries[..n] + [entries[n]];
    }
  }

  function Candidates(entries: seq<string>, prefix: string): seq<string> {
    if entries == [] then []
    else
      var n := |entries| - 1;
      Candidates(entries[..n], prefix) + if LooksLikeSegment(entries[n], prefix) then [entries[n]] else []
  }

  /** Regular files of a directory, in whatever order the directory yields them. */
  method ListJournalSegments(entries: seq<string>, prefix: string) returns (segments: seq<string>)
    ensures segments == Sort(Before, Candidates(entries, prefix))
  {
    segments := [];
    for i := 0 to |entries|
      invariant segments == Candidates(entries[..i], prefix)
    {
      assert entries[..i + 1][..i] == entries[..i];
      if LooksLikeSegment(entries[i], prefix) {
        segments := segments + [entries[i]];
      }
    }
    assert entries[..|entries|] == entries;
    segments := Sort(Before, segments);
  }

  lemma BeforeIsWeakOrder()
    ensures WeakOrder(Before)
  {
    forall x, y | Before(x, y) ensures !Before(y, x) { BeforeTotal(x, y); }
    forall x, y, z | !Before(x, y) && !Before(y, z) ensures !Before(x, z) {
      if Before(x, z) {
        BeforeTotal(x, y);
        BeforeTotal(y, z);
        if x != y && y != z {
          BeforeTransitive(y, x, z);
        }
      }
    }
  }

  /** Names that were created in ascending order are listed in that order, however the directory yields them. */
  lemma ListingIsCreationOrder(names: seq<string>, entries: seq<string>, prefix: string)
    requires StrictlySorted(Before, names)
    requires multiset(Candidates(entries, prefix)) == multiset(names)
    ensures Sort(Before, Candidates(entries, prefix)) == names
  {
    BeforeIsWeakOrder();
    var found := Candidates(entries, prefix);
    SortSorts(Before, found);
    forall x ensures !Before(x, x) { BeforeTotal(x, x); }
    forall x, y | Before(x, y) ensures !Before(y, x) { BeforeTotal(x, y); }
    SortedDistinctIsStrict(Before, names, Sort(Before, found));
    SortedUnique(Before, Sort(Before, found), names);
  }

  predicate EndingAt(name: string, i: int) {
    0 <= i <= |name| - 6 && name[i..i + 6] == ".jsonl"
  }

  /** Exactly the names with the prefix and the ending somewhere in them are listed, each as often as it was found. */
  lemma ListedExactly(entries: seq<string>, prefix: string, name: string)
    ensures multiset(Sort(Before, Candidates(entries, prefix)))[name] ==
      if |prefix| <= |name| && name[..|prefix|] == prefix
         && (exists i :: EndingAt(name, i))
      then multiset(entries)[name] else 0
    ensures Sorted(Before, Sort(Before, Candidates(entries, prefix)))
  {
    BeforeIsWeakOrder();
    SortSorts(Before, Candidates(entries, prefix));
    CandidatesCount(entries, prefix, name);
    LooksSpelledOut(name, prefix);
  }

  lemma {:induction false} CandidatesCount(entries: seq<string>, prefix: string, name: string)
    ensures multiset(Candidates(entries, prefix))[name] == if LooksLikeSegment(name, prefix) then multiset(entries)[name] else 0
  {
    if entries != [] {
      var n := |entries| - 1;
      CandidatesCount(entries[..n], prefix, name);
      assert entries == entries[..n] + [entries[n]];
    }
  }

  lemma LooksSpelledOut(name: string, prefix: string)
    ensures LooksLikeSegment(name, prefix) <==>
      && |prefix| <= |name| && name[..|prefix|] == prefix
      && exists i :: EndingAt(name, i)
  {
    if i :| EndingAt(name, i) {
      assert PartAt(name, ".jsonl", i);
    }
    if i :| 0 <= i <= |name| && PartAt(name, ".jsonl", i) {
      assert EndingAt(name, i);
    }
  }
}
