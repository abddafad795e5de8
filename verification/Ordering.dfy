/** Putting unknown children back among the known ones (xml/ordering.rs, xml.rs extensions_for and
    merge_extensions). */
module Ordering {
  import opened Wrappers

  /** An unknown child and the index it had among all children. */
  datatype Positioned<T> = Positioned(ordinal: nat, child: T)

  // ---- extraction ---------------------------------------------------------------------------

  /** extensions_for: the unknown children with their indices. */
  function Extract<T>(children: seq<T>, known: T -> bool): seq<Positioned<T>> {
    if children == [] then []
    else
      var n := |children| - 1;
      Extract(children[..n], known) + (if known(children[n]) then [] else [Positioned(n, children[n])])
  }

  function KnownOf<T>(children: seq<T>, known: T -> bool): seq<T> {
    if children == [] then []
    else (if known(children[0]) then [children[0]] else []) + KnownOf(children[1..], known)
  }

  // ---- merging ---------------------------------------------------------------------------------

  /** The known children that are there. */
  function Present<T>(known: seq<Option<T>>): seq<T> {
    if known == [] then []
    else
      var n := |known| - 1;
      Present(known[..n]) + (if known[n].Some? then [known[n].value] else [])
  }

  function Children<T>(xs: seq<Positioned<T>>): seq<T> {
    if xs == [] then [] else Children(xs[..|xs| - 1]) + [xs[|xs| - 1].child]
  }

  /** One step of the library's stable sort: behind everything that is not greater. */
  function InsertStable<T>(x: Positioned<T>, sorted: seq<Positioned<T>>): seq<Positioned<T>> {
    if sorted == [] then [x]
    else
      var n := |sorted| - 1;
      if sorted[n].ordinal <= x.ordinal then sorted + [x] else InsertStable(x, sorted[..n]) + [sorted[n]]
  }

  function Sorted<T>(extensions: seq<Positioned<T>>): seq<Positioned<T>> {
    if extensions == [] then []
    else InsertStable(extensions[|extensions| - 1], Sorted(extensions[..|extensions| - 1]))
  }

  function Index(ordinal: nat, count: nat): nat { if ordinal < count then ordinal else count }

  function InsertAt<T>(output: seq<T>, i: nat, child: T): seq<T>
    requires i <= |output|
  {
    output[..i] + [child] + output[i..]
  }

  /** The extensions inserted one after the other. */
  function Placed<T>(output: seq<T>, extensions: seq<Positioned<T>>): (r: seq<T>)
    ensures |r| == |output| + |extensions|
  {
    if extensions == [] then output
    else
      var n := |extensions| - 1;
      var before := Placed(output, extensions[..n]);
      InsertAt(before, Index(extensions[n].ordinal, |before|), extensions[n].child)
  }

  function Merged<T>(known: seq<Option<T>>, extensions: seq<Positioned<T>>): seq<T> {
    Placed(Present(known), Sorted(extensions))
  }

  /** merge. */
  method Merge<T>(known: seq<Option<T>>, extensions: seq<Positioned<T>>) returns (output: seq<T>)
    ensures output == Merged(known, extensions)
  {
    output := [];
    for i := 0 to |known|
      invariant output == Present(known[..i])
    {
      assert known[..i + 1][..i] == known[..i];
      if known[i].Some? {
        output := output + [known[i].value];
      }
    }
    assert known[..|known|] == known;
    var sorted := Sorted(extensions);
    for k := 0 to |sorted|
      invariant output == Placed(Present(known), sorted[..k])
    {
      assert sorted[..k + 1][..k] == sorted[..k];
      output := InsertAt(output, Index(sorted[k].ordinal, |output|), sorted[k].child);
    }
    assert sorted[..|sorted|] == sorted;
  }

  datatype XmlExtension = XmlExtension(parent: string, ordinal: nat, xml: string)

  function Matching(parent: string, extensions: seq<XmlExtension>): seq<Positioned<string>> {
    if extensions == [] then []
    else
      var n := |extensions| - 1;
      Matching(parent, extensions[..n])
      + (if extensions[n].parent == parent then [Positioned(extensions[n].ordinal, extensions[n].xml)] else [])
  }

  /** Children tagged with their parent. */
  function Tagged(parent: string, xs: seq<Positioned<string>>): seq<XmlExtension> {
    seq(|xs|, i requires 0 <= i < |xs| => XmlExtension(parent, xs[i].ordinal, xs[i].child))
  }

  lemma {:induction false} MatchingAppends(parent: string, a: seq<XmlExtension>, b: seq<XmlExtension>)
    ensures Matching(parent, a + b) == Matching(parent, a) + Matching(parent, b)
  {
    if b == [] {
      assert a + b == a;
    } else {
      var n := |b| - 1;
      MatchingAppends(parent, a, b[..n]);
      assert (a + b)[..|a| + n] == a + b[..n] && (a + b)[|a| + n] == b[n];
    }
  }

  lemma {:induction false} NothingMatches(parent: string, extensions: seq<XmlExtension>)
    requires forall e <- extensions :: e.parent != parent
    ensures Matching(parent, extensions) == []
  {
    if extensions != [] {
      NothingMatches(parent, extensions[..|extensions| - 1]);
    }
  }

  lemma {:induction false} TaggedMatch(parent: string, xs: seq<Positioned<string>>)
    ensures Matching(parent, Tagged(parent, xs)) == xs
  {
    if xs != [] {
      var n := |xs| - 1;
      TaggedMatch(parent, xs[..n]);
      assert Tagged(parent, xs)[..n] == Tagged(parent, xs[..n]);
      assert xs == xs[..n] + [xs[n]];
    }
  }

  /** Among the children of all parents those of one are found, with their ordinals and in their order. */
  lemma MatchingUntags(parent: string, xs: seq<Positioned<string>>, before: seq<XmlExtension>, behind: seq<XmlExtension>)
    requires forall e <- before + behind :: e.parent != parent
    ensures Matching(parent, before + Tagged(parent, xs) + behind) == xs
  {
    hide Matching, Tagged;
    assert forall e <- before :: e in before + behind;
    assert forall e <- behind :: e in before + behind;
    MatchingAppends(parent, before + Tagged(parent, xs), behind);
    MatchingAppends(parent, before, Tagged(parent, xs));
    NothingMatches(parent, before);
    NothingMatches(parent, behind);
    TaggedMatch(parent, xs);
    assert [] + xs + [] == xs;
  }

  function NonEmpty(known: seq<string>): seq<Option<string>> {
    seq(|known|, i requires 0 <= i < |known| => if known[i] == "" then None else Some(known[i]))
  }

  /** The texts of the known children that are there, in order. */
  function Texts(known: seq<string>): seq<string> {
    if known == [] then []
    else Texts(known[..|known| - 1]) + (if known[|known| - 1] == "" then [] else [known[|known| - 1]])
  }

  /** The texts of the unknown children of one parent. */
  function TextsOf(parent: string, extensions: seq<XmlExtension>): seq<string> {
    if extensions == [] then []
    else
      var n := |extensions| - 1;
      TextsOf(parent, extensions[..n]) + (if extensions[n].parent == parent then [extensions[n].xml] else [])
  }

  /** `output` consists of the elements of `kept`, in order, with each of `added` put in somewhere, once. */
  ghost predicate Woven<T>(output: seq<T>, kept: seq<T>, added: multiset<T>)
    decreases |output|
  {
    if output == [] then kept == [] && added == multiset{}
    else
      var init, last := output[..|output| - 1], output[|output| - 1];
      (kept != [] && kept[|kept| - 1] == last && Woven(init, kept[..|kept| - 1], added))
      || (last in added && Woven(init, kept, added - multiset{last}))
  }

  /** merge_extensions: empty texts are absent children.  The texts that are there keep their order, and
      exactly the unknown children of this parent are put in among them, each once. */
  method MergeExtensions(parent: string, known: seq<string>, extensions: seq<XmlExtension>) returns (output: seq<string>)
    ensures output == Merged(NonEmpty(known), Matching(parent, extensions))
    ensures Woven(output, Texts(known), multiset(TextsOf(parent, extensions)))
  {
    output := Merge(NonEmpty(known), Matching(parent, extensions));
    MergedIsWoven(NonEmpty(known), Matching(parent, extensions));
    PresentTexts(known);
    MatchingTexts(parent, extensions);
  }

  lemma {:induction false} PresentTexts(known: seq<string>)
    ensures Present(NonEmpty(known)) == Texts(known)
  {
    if known != [] {
      var n := |known| - 1;
      PresentTexts(known[..n]);
      assert NonEmpty(known)[..n] == NonEmpty(known[..n]);
    }
  }

  lemma {:induction false} MatchingTexts(parent: string, extensions: seq<XmlExtension>)
    ensures Children(Matching(parent, extensions)) == TextsOf(parent, extensions)
  {
    if extensions != [] {
      var n := |extensions| - 1;
      MatchingTexts(parent, extensions[..n]);
      var before := Matching(parent, extensions[..n]);
      assert (before + [Positioned(extensions[n].ordinal, extensions[n].xml)])[..|before|] == before;
      assert before + [] == before;
    }
  }

  lemma {:induction false} WovenFromNothing<T>(output: seq<T>)
    ensures Woven(output, output, multiset{})
  {
    if output != [] {
      WovenFromNothing(output[..|output| - 1]);
    }
  }

  lemma EndsKept<T>(output: seq<T>, kept: seq<T>, added: multiset<T>, last: T)
    requires Woven(output, kept, added)
    ensures Woven(output + [last], kept + [last], added)
  {
    assert (output + [last])[..|output|] == output && (kept + [last])[..|kept|] == kept;
  }

  lemma EndsAdded<T>(output: seq<T>, kept: seq<T>, added: multiset<T>, last: T)
    requires Woven(output, kept, added)
    ensures Woven(output + [last], kept, added + multiset{last})
  {
    assert (output + [last])[..|output|] == output;
    assert added + multiset{last} - multiset{last} == added;
  }

  lemma InsertBeforeLast<T>(output: seq<T>, i: nat, x: T)
    requires i < |output|
    ensures InsertAt(output, i, x) == InsertAt(output[..|output| - 1], i, x) + [output[|output| - 1]]
  {
  }

  lemma {:induction false} InsertingWeaves<T>(output: seq<T>, kept: seq<T>, added: multiset<T>, i: nat, x: T)
    requires Woven(output, kept, added) && i <= |output|
    ensures Woven(InsertAt(output, i, x), kept, added + multiset{x})
    decreases |output|
  {
    if i == |output| {
      EndsAdded(output, kept, added, x);
      assert InsertAt(output, i, x) == output + [x];
    } else {
      InsertBeforeLast(output, i, x);
      var init, last := output[..|output| - 1], output[|output| - 1];
      hide InsertAt;
      if kept != [] && kept[|kept| - 1] == last && Woven(init, kept[..|kept| - 1], added) {
        hide Woven;
        InsertingWeaves(init, kept[..|kept| - 1], added, i, x);
        EndsKept(InsertAt(init, i, x), kept[..|kept| - 1], added + multiset{x}, last);
        assert kept == kept[..|kept| - 1] + [last];
      } else {
        assert last in added && Woven(init, kept, added - multiset{last});
        hide Woven;
        InsertingWeaves(init, kept, added - multiset{last}, i, x);
        EndsAdded(InsertAt(init, i, x), kept, added - multiset{last} + multiset{x}, last);
        assert added - multiset{last} + multiset{x} + multiset{last} == added + multiset{x};
      }
    }
  }

  lemma {:induction false} PlacedIsWoven<T>(output: seq<T>, xs: seq<Positioned<T>>)
    ensures Woven(Placed(output, xs), output, multiset(Children(xs)))
  {
    if xs == [] {
      WovenFromNothing(output);
    } else {
      var n := |xs| - 1;
      PlacedIsWoven(output, xs[..n]);
      var before := Placed(output, xs[..n]);
      InsertingWeaves(before, output, multiset(Children(xs[..n])), Index(xs[n].ordinal, |before|), xs[n].child);
    }
  }

  lemma {:induction false} InsertStableKeepsChildren<T>(x: Positioned<T>, sorted: seq<Positioned<T>>)
    ensures multiset(Children(InsertStable(x, sorted))) == multiset(Children(sorted)) + multiset{x.child}
  {
    if sorted != [] {
      var init, last := sorted[..|sorted| - 1], sorted[|sorted| - 1];
      if last.ordinal > x.ordinal {
        InsertStableKeepsChildren(x, init);
        assert (InsertStable(x, init) + [last])[..|InsertStable(x, init)|] == InsertStable(x, init);
      } else {
        assert (sorted + [x])[..|sorted|] == sorted;
      }
    }
  }

  lemma {:induction false} SortedKeepsChildren<T>(xs: seq<Positioned<T>>)
    ensures multiset(Children(Sorted(xs))) == multiset(Children(xs))
  {
    if xs != [] {
      SortedKeepsChildren(xs[..|xs| - 1]);
      InsertStableKeepsChildren(xs[|xs| - 1], Sorted(xs[..|xs| - 1]));
    }
  }

  /** Merging loses nothing, adds nothing and keeps the known children in order, whatever the ordinals are. */
  lemma MergedIsWoven<T>(slots: seq<Option<T>>, extensions: seq<Positioned<T>>)
    ensures Woven(Merged(slots, extensions), Present(slots), multiset(Children(extensions)))
  {
    PlacedIsWoven(Present(slots), Sorted(extensions));
    SortedKeepsChildren(extensions);
  }

  // ---- the sort ---------------------------------------------------------------------------------------

  ghost predicate Ascending<T>(xs: seq<Positioned<T>>) {
    forall i, j :: 0 <= i < j < |xs| ==> xs[i].ordinal <= xs[j].ordinal
  }

  ghost predicate StrictlyAscending<T>(xs: seq<Positioned<T>>) {
    forall i, j :: 0 <= i < j < |xs| ==> xs[i].ordinal < xs[j].ordinal
  }

  /** The extensions with one ordinal, in order. */
  function WithOrdinal<T>(xs: seq<Positioned<T>>, ordinal: nat): seq<Positioned<T>> {
    if xs == [] then []
    else
      var n := |xs| - 1;
      WithOrdinal(xs[..n], ordinal) + (if xs[n].ordinal == ordinal then [xs[n]] else [])
  }

  lemma {:induction false} NoneAbove<T>(xs: seq<Positioned<T>>, ordinal: nat)
    requires forall x <- xs :: x.ordinal < ordinal
    ensures WithOrdinal(xs, ordinal) == []
  {
    if xs != [] {
      NoneAbove(xs[..|xs| - 1], ordinal);
    }
  }

  lemma {:induction false} InsertStableHolds<T>(x: Positioned<T>, sorted: seq<Positioned<T>>)
    ensures multiset(InsertStable(x, sorted)) == multiset(sorted) + multiset{x}
    ensures |InsertStable(x, sorted)| == |sorted| + 1
  {
    if sorted != [] {
      var init, last := sorted[..|sorted| - 1], sorted[|sorted| - 1];
      assert sorted == init + [last];
      if last.ordinal > x.ordinal {
        InsertStableHolds(x, init);
      }
    }
  }

  lemma {:induction false} InsertStableSorts<T>(x: Positioned<T>, sorted: seq<Positioned<T>>)
    requires Ascending(sorted)
    ensures Ascending(InsertStable(x, sorted))
    ensures forall i :: 0 <= i < |InsertStable(x, sorted)| ==>
      InsertStable(x, sorted)[i].ordinal <= x.ordinal
      || (sorted != [] && InsertStable(x, sorted)[i].ordinal <= sorted[|sorted| - 1].ordinal)
  {
    if sorted != [] {
      var init, last := sorted[..|sorted| - 1], sorted[|sorted| - 1];
      if last.ordinal > x.ordinal {
        InsertStableSorts(x, init);
      }
    }
  }

  lemma {:induction false} InsertStableKeepsOrder<T>(x: Positioned<T>, sorted: seq<Positioned<T>>, ordinal: nat)
    requires Ascending(sorted)
    ensures WithOrdinal(InsertStable(x, sorted), ordinal)
            == WithOrdinal(sorted, ordinal) + (if x.ordinal == ordinal then [x] else [])
  {
    if sorted == [] {
      assert [x][..0] == [];
    } else {
      var init, last := sorted[..|sorted| - 1], sorted[|sorted| - 1];
      if last.ordinal <= x.ordinal {
        assert (sorted + [x])[..|sorted|] == sorted;
      } else {
        InsertStableKeepsOrder(x, init, ordinal);
        assert (InsertStable(x, init) + [last])[..|InsertStable(x, init)|] == InsertStable(x, init);
        if last.ordinal == ordinal {
          assert x.ordinal != ordinal;
        }
      }
    }
  }

  /** The sort is a stable sort. */
  lemma {:induction false} SortIsStable<T>(extensions: seq<Positioned<T>>)
    ensures Ascending(Sorted(extensions)) && multiset(Sorted(extensions)) == multiset(extensions)
    ensures forall ordinal :: WithOrdinal(Sorted(extensions), ordinal) == WithOrdinal(extensions, ordinal)
  {
    if extensions != [] {
      var init, last := extensions[..|extensions| - 1], extensions[|extensions| - 1];
      assert extensions == init + [last];
      SortIsStable(init);
      InsertStableSorts(last, Sorted(init));
      InsertStableHolds(last, Sorted(init));
      forall ordinal ensures WithOrdinal(Sorted(extensions), ordinal) == WithOrdinal(extensions, ordinal) {
        InsertStableKeepsOrder(last, Sorted(init), ordinal);
      }
    }
  }

  lemma {:induction false} SortKeepsSorted<T>(xs: seq<Positioned<T>>)
    requires Ascending(xs)
    ensures Sorted(xs) == xs
  {
    if xs != [] {
      var init, last := xs[..|xs| - 1], xs[|xs| - 1];
      SortKeepsSorted(init);
      assert xs == init + [last];
    }
  }

  // ---- rebuilding a list ---------------------------------------------------------------------------------

  lemma {:induction false} ExtractFinds<T>(children: seq<T>, known: T -> bool)
    ensures forall k :: 0 <= k < |Extract(children, known)| ==>
      var x := Extract(children, known)[k];
      x.ordinal < |children| && x.child == children[x.ordinal] && !known(x.child)
  {
    if children != [] {
      ExtractFinds(children[..|children| - 1], known);
    }
  }

  lemma {:induction false} ExtractAscends<T>(children: seq<T>, known: T -> bool)
    ensures StrictlyAscending(Extract(children, known))
  {
    if children != [] {
      ExtractAscends(children[..|children| - 1], known);
      ExtractFinds(children[..|children| - 1], known);
    }
  }

  lemma KnownStep<T>(child: T, rest: seq<T>, known: T -> bool)
    ensures KnownOf([child] + rest, known) == (if known(child) then [child] else []) + KnownOf(rest, known)
  {
    assert ([child] + rest)[1..] == rest;
  }

  lemma ExtractStep<T>(init: seq<T>, child: T, known: T -> bool)
    ensures Extract(init + [child], known)
            == Extract(init, known) + (if known(child) then [] else [Positioned(|init|, child)])
  {
    assert (init + [child])[..|init|] == init;
  }

  lemma PlacedStep<T>(output: seq<T>, extensions: seq<Positioned<T>>, x: Positioned<T>)
    ensures var before := Placed(output, extensions);
      Placed(output, extensions + [x]) == InsertAt(before, Index(x.ordinal, |before|), x.child)
  {
    assert (extensions + [x])[..|extensions|] == extensions;
  }

  lemma InsertMiddle<T>(a: seq<T>, m: seq<T>, b: seq<T>, x: T)
    ensures InsertAt(a + m + b, |a|, x) == a + ([x] + m) + b
  {
    assert (a + m + b)[..|a|] == a && (a + m + b)[|a|..] == m + b;
  }

  lemma RebuildStep<T>(output: seq<T>, before: seq<Positioned<T>>, done: seq<T>, tail: seq<T>, child: T)
    requires Placed(output, before) == done + tail
    ensures Placed(output, before + [Positioned(|done|, child)]) == done + [child] + tail
  {
    PlacedStep(output, before, Positioned(|done|, child));
    hide Placed;
    InsertMiddle(done, [], tail, child);
    assert done + [] + tail == done + tail && [child] + [] == [child];
  }

  /** After the unknown ones of the first children have been placed, these children stand as they were. */
  lemma {:induction false} RebuiltUpTo<T>(done: seq<T>, rest: seq<T>, known: T -> bool)
    ensures Placed(KnownOf(done + rest, known), Extract(done, known)) == done + KnownOf(rest, known)
    decreases |done|
  {
    if done == [] {
      assert [] + rest == rest && [] + KnownOf(rest, known) == KnownOf(rest, known);
    } else {
      hide Placed, KnownOf, Extract;
      var init, child := done[..|done| - 1], done[|done| - 1];
      RebuiltUpTo(init, [child] + rest, known);
      assert done == init + [child];
      assert init + ([child] + rest) == done + rest;
      KnownStep(child, rest, known);
      ExtractStep(init, child, known);
      var before, tail := Extract(init, known), KnownOf(rest, known);
      if known(child) {
        assert before + [] == before;
        assert init + ([child] + tail) == done + tail;
      } else {
        assert [] + tail == tail;
        RebuildStep(KnownOf(done + rest, known), before, init, tail, child);
      }
    }
  }

  /** Taking a child list apart and merging it again rebuilds it, for every split into known and unknown
      children and wherever absent known children stand between the present ones. */
  lemma MergeRebuilds<T>(children: seq<T>, known: T -> bool, slots: seq<Option<T>>)
    requires Present(slots) == KnownOf(children, known)
    ensures Merged(slots, Extract(children, known)) == children
  {
    ExtractAscends(children, known);
    SortKeepsSorted(Extract(children, known));
    RebuiltUpTo(children, [], known);
    assert children + [] == children;
  }

  // ---- arbitrary ordinals ----------------------------------------------------------------------------------

  lemma {:induction false} KnownOfConcat<T>(a: seq<T>, b: seq<T>, known: T -> bool)
    ensures KnownOf(a + b, known) == KnownOf(a, known) + KnownOf(b, known)
  {
    if a == [] {
      assert a + b == b;
    } else {
      KnownOfConcat(a[1..], b, known);
      assert (a + b)[1..] == a[1..] + b;
      var head := if known(a[0]) then [a[0]] else [];
      var x, y := KnownOf(a[1..], known), KnownOf(b, known);
      assert head + (x + y) == (head + x) + y;
    }
  }

  lemma {:induction false} PlacedKeepsKnown<T>(output: seq<T>, extensions: seq<Positioned<T>>, known: T -> bool)
    requires forall x <- extensions :: !known(x.child)
    ensures KnownOf(Placed(output, extensions), known) == KnownOf(output, known)
  {
    if extensions != [] {
      var n := |extensions| - 1;
      PlacedKeepsKnown(output, extensions[..n], known);
      assert extensions[n] in extensions;
      var before := Placed(output, extensions[..n]);
      hide KnownOf;
      InsertKeepsKnown(before, Index(extensions[n].ordinal, |before|), extensions[n].child, known);
    }
  }

  lemma InsertKeepsKnown<T>(output: seq<T>, i: nat, child: T, known: T -> bool)
    requires i <= |output| && !known(child)
    ensures KnownOf(InsertAt(output, i, child), known) == KnownOf(output, known)
  {
    assert KnownOf([child], known) == [];
    hide KnownOf;
    KnownOfConcat(output[..i] + [child], output[i..], known);
    KnownOfConcat(output[..i], [child], known);
    KnownOfConcat(output[..i], output[i..], known);
    assert output == output[..i] + output[i..];
    assert KnownOf(output[..i], known) + [] == KnownOf(output[..i], known);
  }

  lemma {:induction false} AllKnown<T>(children: seq<T>, known: T -> bool)
    requires forall c <- children :: known(c)
    ensures KnownOf(children, known) == children
  {
    if children != [] {
      AllKnown(children[1..], known);
      assert children == [children[0]] + children[1..];
    }
  }

  /** Whatever the ordinals are, repeated or out of range: the known children keep their order, and taking
      the result apart and merging it again changes nothing. */
  lemma MergeIsStable<T>(slots: seq<Option<T>>, extensions: seq<Positioned<T>>, known: T -> bool)
    requires forall c <- Present(slots) :: known(c)
    requires forall x <- extensions :: !known(x.child)
    ensures KnownOf(Merged(slots, extensions), known) == Present(slots)
    ensures Merged(slots, Extract(Merged(slots, extensions), known)) == Merged(slots, extensions)
  {
    SortIsStable(extensions);
    forall x | x in Sorted(extensions) ensures !known(x.child) {
      assert x in multiset(Sorted(extensions));
      assert x in multiset(extensions);
    }
    PlacedKeepsKnown(Present(slots), Sorted(extensions), known);
    AllKnown(Present(slots), known);
    MergeRebuilds(Merged(slots, extensions), known, slots);
  }

  /** Strictly ascending ordinals below the final length land where they say. */
  lemma {:induction false} PlacedLands<T>(output: seq<T>, xs: seq<Positioned<T>>, k: nat)
    requires StrictlyAscending(xs) && k < |xs|
    requires xs[|xs| - 1].ordinal < |output| + |xs|
    ensures xs[k].ordinal < |output| + |xs| && Placed(output, xs)[xs[k].ordinal] == xs[k].child
  {
    var n := |xs| - 1;
    if k < n {
      PlacedLands(output, xs[..n], k);
      assert xs[k].ordinal < xs[n].ordinal;
    }
  }

  lemma {:induction false} SortedIsStrict<T>(xs: seq<Positioned<T>>)
    requires Ascending(xs) && forall ordinal :: |WithOrdinal(xs, ordinal)| <= 1
    ensures StrictlyAscending(xs)
  {
    if xs != [] {
      var init, last := xs[..|xs| - 1], xs[|xs| - 1];
      forall ordinal ensures |WithOrdinal(init, ordinal)| <= 1 {
        assert |WithOrdinal(xs, ordinal)| <= 1;
      }
      SortedIsStrict(init);
      if init != [] && init[|init| - 1].ordinal == last.ordinal {
        assert |WithOrdinal(init, last.ordinal)| >= 1;
        assert |WithOrdinal(xs, last.ordinal)| >= 2;
      }
    }
  }

  lemma {:induction false} DistinctCounts<T>(xs: seq<Positioned<T>>, ordinal: nat)
    requires forall i, j :: 0 <= i < j < |xs| ==> xs[i].ordinal != xs[j].ordinal
    ensures |WithOrdinal(xs, ordinal)| <= 1
    ensures (forall x <- xs :: x.ordinal != ordinal) ==> WithOrdinal(xs, ordinal) == []
  {
    if xs != [] {
      DistinctCounts(xs[..|xs| - 1], ordinal);
    }
  }

  /** Distinct ordinals within the final child list are exactly the final positions. */
  lemma DistinctOrdinalsLand<T>(slots: seq<Option<T>>, extensions: seq<Positioned<T>>, x: Positioned<T>)
    requires forall i, j :: 0 <= i < j < |extensions| ==> extensions[i].ordinal != extensions[j].ordinal
    requires forall e <- extensions :: e.ordinal < |Present(slots)| + |extensions|
    requires x in extensions
    ensures x.ordinal < |Merged(slots, extensions)| && Merged(slots, extensions)[x.ordinal] == x.child
  {
    SortIsStable(extensions);
    var sorted := Sorted(extensions);
    forall ordinal ensures |WithOrdinal(sorted, ordinal)| <= 1 {
      DistinctCounts(extensions, ordinal);
    }
    SortedIsStrict(sorted);
    assert |sorted| == |multiset(sorted)| == |multiset(extensions)| == |extensions|;
    assert x in multiset(sorted);
    var k :| 0 <= k < |sorted| && sorted[k] == x;
    assert sorted[|sorted| - 1] in multiset(extensions);
    PlacedLands(Present(slots), sorted, k);
  }

  // ---- equal ordinals ------------------------------------------------------------------------------------

  function Reversed<T>(xs: seq<T>): seq<T> {
    if xs == [] then [] else [xs[|xs| - 1]] + Reversed(xs[..|xs| - 1])
  }

  lemma ReversedGrows<T>(xs: seq<T>, x: T)
    ensures Reversed(xs + [x]) == [x] + Reversed(xs)
  {
    assert (xs + [x])[..|xs|] == xs;
  }

  lemma {:induction false} EqualOrdinalsReverse<T>(output: seq<T>, xs: seq<Positioned<T>>, ordinal: nat)
    requires (forall x <- xs :: x.ordinal == ordinal) && ordinal <= |output|
    ensures Placed(output, xs) == output[..ordinal] + Reversed(Children(xs)) + output[ordinal..]
  {
    var a, b := output[..ordinal], output[ordinal..];
    if xs == [] {
      assert output == a + [] + b;
    } else {
      var init, last := xs[..|xs| - 1], xs[|xs| - 1];
      assert xs == init + [last];
      EqualOrdinalsReverse(output, init, ordinal);
      PlacedStep(output, init, last);
      ReversedGrows(Children(init), last.child);
      hide Placed, InsertAt, Reversed;
      assert last in xs;
      InsertMiddle(a, Reversed(Children(init)), b, last.child);
    }
  }

  lemma InsertAtEnd<T>(output: seq<T>, ordinal: nat, x: T)
    requires |output| <= ordinal
    ensures InsertAt(output, Index(ordinal, |output|), x) == output + [x]
  {
  }

  lemma {:induction false} FarOrdinalsKeepOrder<T>(output: seq<T>, xs: seq<Positioned<T>>, ordinal: nat)
    requires (forall x <- xs :: x.ordinal == ordinal) && |output| + |xs| <= ordinal + 1
    ensures Placed(output, xs) == output + Children(xs)
  {
    if xs == [] {
      assert output + [] == output;
    } else {
      hide Placed, InsertAt, Index;
      var init, last := xs[..|xs| - 1], xs[|xs| - 1];
      assert xs == init + [last] && last in xs;
      FarOrdinalsKeepOrder(output, init, ordinal);
      PlacedStep(output, init, last);
      InsertAtEnd(Placed(output, init), ordinal, last.child);
      assert output + Children(init) + [last.child] == output + (Children(init) + [last.child]);
    }
  }

  lemma {:induction false} PlacedInTwo<T>(output: seq<T>, xs: seq<Positioned<T>>, ys: seq<Positioned<T>>)
    ensures Placed(output, xs + ys) == Placed(Placed(output, xs), ys)
  {
    if ys == [] {
      assert xs + ys == xs;
    } else {
      var init, last := ys[..|ys| - 1], ys[|ys| - 1];
      PlacedInTwo(output, xs, init);
      PlacedStep(output, xs + init, last);
      PlacedStep(Placed(output, xs), init, last);
      assert xs + ys == xs + init + [last] && ys == init + [last];
    }
  }

  lemma {:induction false} ChildrenAt<T>(xs: seq<Positioned<T>>)
    ensures |Children(xs)| == |xs| && forall i :: 0 <= i < |xs| ==> Children(xs)[i] == xs[i].child
  {
    if xs != [] {
      ChildrenAt(xs[..|xs| - 1]);
    }
  }

  lemma {:induction false} ReversedLength<T>(xs: seq<T>)
    ensures |Reversed(xs)| == |xs|
  {
    if xs != [] {
      ReversedLength(xs[..|xs| - 1]);
    }
  }

  lemma ChildrenSplit<T>(xs: seq<Positioned<T>>, k: nat)
    requires k <= |xs|
    ensures |Children(xs)| == |xs|
    ensures Children(xs[..k]) == Children(xs)[..k] && Children(xs[k..]) == Children(xs)[k..]
  {
    hide Children;
    ChildrenAt(xs);
    ChildrenAt(xs[..k]);
    ChildrenAt(xs[k..]);
  }

  /** The first children up to the position the ordinal names keep their order, the rest come out in reverse. */
  lemma LateOrdinals<T>(output: seq<T>, xs: seq<Positioned<T>>, ordinal: nat)
    requires (forall x <- xs :: x.ordinal == ordinal) && ordinal > |output|
    ensures |Children(xs)| == |xs|
    ensures var k := Index(ordinal - |output|, |xs|);
      Placed(output, xs) == output + Children(xs)[..k] + Reversed(Children(xs)[k..])
  {
    hide Placed, Children, Reversed;
    var k := Index(ordinal - |output|, |xs|);
    var front, back := xs[..k], xs[k..];
    assert xs == front + back;
    ChildrenSplit(xs, k);
    PlacedInTwo(output, front, back);
    FarOrdinalsKeepOrder(output, front, ordinal);
    ReversedBehind(output + Children(front), back, ordinal);
  }

  lemma ReversedBehind<T>(output: seq<T>, xs: seq<Positioned<T>>, ordinal: nat)
    requires forall x <- xs :: x.ordinal == ordinal
    requires ordinal == |output| || xs == []
    ensures Placed(output, xs) == output + Reversed(Children(xs))
  {
    if xs == [] {
      assert output + [] == output;
    } else {
      hide Placed, Children, Reversed;
      EqualOrdinalsReverse(output, xs, ordinal);
      assert output[..ordinal] == output && output[ordinal..] == [];
      assert output + Reversed(Children(xs)) + [] == output + Reversed(Children(xs));
    }
  }

  predicate Distinct<T(==)>(xs: seq<T>) { forall i, j :: 0 <= i < j < |xs| ==> xs[i] != xs[j] }

  lemma {:induction false} ReversalShows<T>(a: seq<T>, xs: seq<T>, b: seq<T>)
    requires Distinct(xs)
    ensures a + Reversed(xs) + b == a + xs + b <==> |xs| <= 1
  {
    ReversedLength(xs);
    if |xs| > 1 {
      assert (a + Reversed(xs) + b)[|a|] == xs[|xs| - 1] && (a + xs + b)[|a|] == xs[0];
    } else if |xs| == 1 {
      assert xs == [xs[0]] && Reversed<T>(xs[..0]) == [];
    }
  }

  /** Where children that share an ordinal end up.  If the ordinal lies within the list they are merged into
      they come out in reverse, because each is inserted in front of the one before; further out the first
      ones keep their order until the list has grown to that position, and the rest come out in reverse. */
  function SharedPlaced<T>(output: seq<T>, children: seq<T>, ordinal: nat): seq<T> {
    if ordinal <= |output| then output[..ordinal] + Reversed(children) + output[ordinal..]
    else
      var k := Index(ordinal - |output|, |children|);
      output + children[..k] + Reversed(children[k..])
  }

  /** The same list if their order were kept. */
  function OrderKept<T>(output: seq<T>, children: seq<T>, ordinal: nat): seq<T> {
    var i := Index(ordinal, |output|);
    output[..i] + children + output[i..]
  }

  lemma SharedOrder<T>(output: seq<T>, children: seq<T>, ordinal: nat)
    requires Distinct(children)
    ensures SharedPlaced(output, children, ordinal) == OrderKept(output, children, ordinal)
            <==> |children| <= 1 || ordinal >= |output| + |children| - 1
  {
    hide Reversed;
    if ordinal <= |output| {
      ReversalShows(output[..ordinal], children, output[ordinal..]);
    } else {
      var k := Index(ordinal - |output|, |children|);
      var a, b := output + children[..k], children[k..];
      ReversalShows(a, b, []);
      assert a + Reversed(b) + [] == a + Reversed(b);
      assert OrderKept(output, children, ordinal) == a + b + [];
    }
  }

  /** Any number of extensions that share an ordinal.  Distinct children keep their order exactly if there is at
      most one of them or the ordinal leaves room for all the others. */
  lemma EqualOrdinals<T>(slots: seq<Option<T>>, xs: seq<Positioned<T>>, ordinal: nat)
    requires forall x <- xs :: x.ordinal == ordinal
    ensures Merged(slots, xs) == SharedPlaced(Present(slots), Children(xs), ordinal)
    ensures Distinct(Children(xs)) ==>
              (Merged(slots, xs) == OrderKept(Present(slots), Children(xs), ordinal)
               <==> |xs| <= 1 || ordinal >= |Present(slots)| + |xs| - 1)
  {
    hide Placed, Children, Present, OrderKept, SharedPlaced, Distinct, Sorted;
    ChildrenAt(xs);
    assert Sorted(xs) == xs by {
      SortKeepsSorted(xs);
    }
    PlacedIsShared(Present(slots), xs, ordinal);
    if Distinct(Children(xs)) {
      SharedOrder(Present(slots), Children(xs), ordinal);
    }
  }

  lemma PlacedIsShared<T>(output: seq<T>, xs: seq<Positioned<T>>, ordinal: nat)
    requires forall x <- xs :: x.ordinal == ordinal
    ensures Placed(output, xs) == SharedPlaced(output, Children(xs), ordinal)
  {
    hide Placed, Children, Reversed;
    if ordinal <= |output| {
      EqualOrdinalsReverse(output, xs, ordinal);
    } else {
      LateOrdinals(output, xs, ordinal);
    }
  }

  /** An ordinal past the end of the list does not suffice: two of these three are reversed. */
  lemma ThreeOfOneOrdinal()
    ensures Merged<int>([], [Positioned(1, 10), Positioned(1, 20), Positioned(1, 30)]) == [10, 30, 20]
  {
    hide Merged;
    var xs: seq<Positioned<int>> := [Positioned(1, 10), Positioned(1, 20), Positioned(1, 30)];
    EqualOrdinals<int>([], xs, 1);
    assert Children(xs) == [10, 20, 30] by {
      ChildrenAt(xs);
    }
    PairReversed(20, 30);
  }

  lemma PairReversed(a: int, b: int)
    ensures Reversed([a, b]) == [b, a]
  {
    assert [a, b] == [a] + [b] && [a] == [] + [a];
    ReversedGrows([a], b);
    ReversedGrows([], a);
  }
}
