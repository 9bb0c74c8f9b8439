/** The generated hint codes: as few keystrokes as any prefix-free choice allows. */
module HintCodes {
  import opened Lists
  import opened HintWords

  // ----- depth

  /** How many words of length `depth` there are, first letter from `roots` letters. */
  function Capacity(roots: nat, letters: nat, depth: nat): nat
    requires depth > 0
  {
    roots * Pow(letters, depth - 1)
  }

  /** The first depth at or below `depth` (of capacity `capacity`) that has room for `count` words. */
  function DepthFrom(count: nat, capacity: nat, letters: nat, depth: nat): nat
    requires capacity > 0 && letters >= 2
    decreases count - capacity
  {
    if count <= capacity then depth
    else
      Monotone(capacity, 2, letters);
      DepthFrom(count, capacity * letters, letters, depth + 1)
  }

  function Depth(count: nat, roots: nat, letters: nat): nat
    requires roots > 0 && letters >= 2
  {
    DepthFrom(count, roots, letters, 1)
  }

  lemma {:induction false} DepthFromFits(count: nat, roots: nat, letters: nat, depth: nat)
    requires roots > 0 && letters >= 2 && depth > 0
    requires Capacity(roots, letters, depth) > 0
    requires depth > 1 ==> Capacity(roots, letters, depth - 1) < count
    ensures var found := DepthFrom(count, Capacity(roots, letters, depth), letters, depth);
            && found >= depth
            && count <= Capacity(roots, letters, found)
            && (found > 1 ==> Capacity(roots, letters, found - 1) < count)
    decreases count - Capacity(roots, letters, depth)
  {
    if count > Capacity(roots, letters, depth) {
      Regroup(letters, roots, Pow(letters, depth - 1));
      assert Capacity(roots, letters, depth + 1) == Capacity(roots, letters, depth) * letters;
      Monotone(Capacity(roots, letters, depth), 2, letters);
      DepthFromFits(count, roots, letters, depth + 1);
    }
  }

  lemma DepthFits(count: nat, roots: nat, letters: nat)
    requires roots > 0 && letters >= 2
    ensures var depth := Depth(count, roots, letters);
            && depth > 0
            && count <= Capacity(roots, letters, depth)
            && (depth > 1 ==> Capacity(roots, letters, depth - 1) < count
                              <= letters * Capacity(roots, letters, depth - 1))
  {
    assert Capacity(roots, letters, 1) == roots;
    DepthFromFits(count, roots, letters, 1);
    var depth := Depth(count, roots, letters);
    if depth > 1 {
      Regroup(letters, roots, Pow(letters, depth - 2));
    }
  }

  lemma {:induction false} CapacityGrows(roots: nat, letters: nat, shallow: nat, deep: nat)
    requires letters > 0 && 0 < shallow <= deep
    ensures Capacity(roots, letters, shallow) <= Capacity(roots, letters, deep)
    decreases deep - shallow
  {
    if shallow < deep {
      PowPositive(letters, shallow - 1);
      Monotone(Pow(letters, shallow - 1), 1, letters);
      Monotone(roots, Pow(letters, shallow - 1), Pow(letters, shallow));
      CapacityGrows(roots, letters, shallow + 1, deep);
    }
  }

  /** The depth search ends exactly when there is nothing to name or some first letter to name it with. */
  lemma DepthSearchEnds(count: nat, roots: nat, letters: nat)
    requires letters >= 2
    ensures (exists depth: nat :: depth > 0 && count <= Capacity(roots, letters, depth)) <==> (count == 0 || roots > 0)
  {
    if roots > 0 {
      DepthFits(count, roots, letters);
    } else if count == 0 {
      assert count <= Capacity(roots, letters, 1);
    }
  }

  // ----- words of one width

  function Letters(alphabet: string): seq<string> {
    seq(|alphabet|, i requires 0 <= i < |alphabet| => [alphabet[i]])
  }

  function Children(parent: string, letters: string): seq<string> {
    seq(|letters|, i requires 0 <= i < |letters| => parent + [letters[i]])
  }

  predicate Within(counts: seq<nat>, limit: nat) {
    forall i :: 0 <= i < |counts| ==> counts[i] <= limit
  }

  function Repeat(value: nat, times: nat): seq<nat> {
    seq(times, _ => value)
  }

  ghost function Sum(counts: seq<nat>): nat {
    if counts == [] then 0 else counts[0] + Sum(counts[1..])
  }

  /** Each parent replaced by its first `counts[i]` children. */
  function Grow(parents: seq<string>, counts: seq<nat>, alphabet: string): (leaves: seq<string>)
    requires |parents| == |counts|
    requires Within(counts, |alphabet|)
  {
    if parents == [] then []
    else
      Children(parents[0], alphabet[..counts[0]]) + Grow(parents[1..], counts[1..], alphabet)
  }

  /** Every word of length `width`, in alphabet order. */
  function FixedWidth(root: string, alphabet: string, width: nat): seq<string>
    requires width > 0
  {
    if width == 1 then Letters(root)
    else
      var prefixes := FixedWidth(root, alphabet, width - 1);
      Grow(prefixes, Repeat(|alphabet|, |prefixes|), alphabet)
  }

  lemma {:induction false} GrowCount(parents: seq<string>, counts: seq<nat>, alphabet: string)
    requires |parents| == |counts|
    requires Within(counts, |alphabet|)
    ensures |Grow(parents, counts, alphabet)| == Sum(counts)
  {
    if parents != [] {
      GrowCount(parents[1..], counts[1..], alphabet);
    }
  }

  lemma {:induction false} SumRepeat(value: nat, times: nat)
    ensures Sum(Repeat(value, times)) == times * value
  {
    if times > 0 {
      assert Repeat(value, times)[1..] == Repeat(value, times - 1);
      SumRepeat(value, times - 1);
      OneMore(times - 1, value);
    }
  }

  lemma {:induction false} FixedWidthCount(root: string, alphabet: string, width: nat)
    requires width > 0
    ensures |FixedWidth(root, alphabet, width)| == Capacity(|root|, |alphabet|, width)
  {
    if width > 1 {
      var prefixes := FixedWidth(root, alphabet, width - 1);
      FixedWidthCount(root, alphabet, width - 1);
      GrowCount(prefixes, Repeat(|alphabet|, |prefixes|), alphabet);
      SumRepeat(|alphabet|, |prefixes|);
      Regroup(|alphabet|, |root|, Pow(|alphabet|, width - 2));
    }
  }

  // ----- leaves expanded

  /** The number of leaves that make room for `additional` more when each trades one leaf for `letters`. */
  function ExpandedCount(additional: nat, letters: nat): nat
    requires letters >= 2
  {
    (additional + letters - 2) / (letters - 1)
  }

  lemma CeilingDivision(additional: nat, letters: nat)
    requires letters >= 2
    ensures var expanded := ExpandedCount(additional, letters);
            additional <= (letters - 1) * expanded < additional + letters - 1
  {
  }

  /** The chosen number of leaves can absorb the additional codes, with between two and all children each. */
  lemma ExpansionFits(count: nat, shallow: nat, letters: nat)
    requires letters >= 2 && shallow < count <= letters * shallow
    ensures var expanded := ExpandedCount(count - shallow, letters);
            && 0 < expanded <= shallow
            && 2 * expanded <= count - (shallow - expanded) <= letters * expanded
  {
    var expanded := ExpandedCount(count - shallow, letters);
    CeilingDivision(count - shallow, letters);
    OneMore(letters - 1, expanded);
    OneMore(letters - 1, shallow);
    if expanded > shallow {
      Monotone(letters - 1, shallow + 1, expanded);
      Distribute(letters - 1, shallow, 1);
    }
    if expanded > count - shallow {
      Monotone(letters - 1, count - shallow + 1, expanded);
      Distribute(letters - 1, count - shallow, 1);
      Monotone(count - shallow, 1, letters - 1);
    }
  }

  /** How many children each of `parents` leaves gets: full ones first, always leaving two for each later leaf. */
  function ChildCounts(parents: nat, needed: int, letters: nat): (counts: seq<nat>)
    requires letters >= 2 && 2 * parents <= needed <= letters * parents
    ensures |counts| == parents
    ensures Within(counts, letters) && forall i :: 0 <= i < |counts| ==> 2 <= counts[i]
    ensures Sum(counts) == needed
  {
    if parents == 0 then []
    else
      var first := if letters <= needed - (parents - 1) * 2 then letters else needed - (parents - 1) * 2;
      OneMore(parents - 1, letters);
      Monotone(parents - 1, 2, letters);
      [first] + ChildCounts(parents - 1, needed - first, letters)
  }

  predicate ToHandOut(parents: nat, needed: int, letters: nat) {
    2 * parents <= needed <= letters * parents
  }

  /** How many of the shallow leaves stay leaves. */
  function RetainedCount(count: nat, shallow: nat, letters: nat): (retained: nat)
    requires letters >= 2 && shallow < count <= letters * shallow
    ensures retained < shallow && ToHandOut(shallow - retained, count - retained, letters)
  {
    ExpansionFits(count, shallow, letters);
    shallow - ExpandedCount(count - shallow, letters)
  }

  /** The leaves still to come when `needed` children remain for `parents`. */
  function Handed(parents: seq<string>, needed: int, alphabet: string): seq<string>
    requires |alphabet| >= 2 && ToHandOut(|parents|, needed, |alphabet|)
  {
    Grow(parents, ChildCounts(|parents|, needed, |alphabet|), alphabet)
  }

  /** The last shallow leaves expanded, just enough of them to make `count` leaves. */
  function DeepCodes(count: nat, shallow: seq<string>, alphabet: string): seq<string>
    requires |alphabet| >= 2 && |shallow| < count <= |alphabet| * |shallow|
  {
    var retained := RetainedCount(count, |shallow|, |alphabet|);
    shallow[..retained] + Handed(shallow[retained..], count - retained, alphabet)
  }

  function CompactCodes(count: nat, root: string, alphabet: string): seq<string>
    requires |alphabet| >= 2
    requires count > 0 ==> root != ""
  {
    if count == 0 then []
    else
      var depth := Depth(count, |root|, |alphabet|);
      DepthFits(count, |root|, |alphabet|);
      if depth == 1 then Letters(root)[..count]
      else
        FixedWidthCount(root, alphabet, depth - 1);
        DeepCodes(count, FixedWidth(root, alphabet, depth - 1), alphabet)
  }

  // ----- prefix freedom

  /** Replacing one leaf by distinct children keeps the code prefix-free. */
  lemma ExpandLeaf(before: seq<string>, leaf: string, after: seq<string>, letters: string)
    requires PrefixFree(before + [leaf] + after) && Distinct(letters)
    ensures PrefixFree(before + Children(leaf, letters) + after)
  {
    var was, children := before + [leaf] + after, Children(leaf, letters);
    var all := before + children + after;
    var b, c := |before|, |letters|;
    assert was[b] == leaf;
    forall i, j | 0 <= i < |all| && 0 <= j < |all| && i != j ensures !(all[i] <= all[j]) {
      var from := if i < b then i else if i < b + c then b else i - c + 1;
      var target := if j < b then j else if j < b + c then b else j - c + 1;
      assert was[from] <= all[i] && was[target] <= all[j];
      if b <= i < b + c && b <= j < b + c {
        assert all[i][|leaf|] == letters[i - b] && all[j][|leaf|] == letters[j - b];
      } else {
        assert !(was[from] <= was[target]) && !(was[target] <= was[from]);
        if all[i] <= all[j] {
          BranchesMeet(was[from], was[target], all[i], all[j]);
        }
      }
    }
  }

  lemma BranchesMeet(x: string, y: string, beyondX: string, beyondY: string)
    requires x <= beyondX && y <= beyondY && beyondX <= beyondY
    ensures x <= y || y <= x
  {
    if |x| <= |y| {
      assert x == beyondY[..|x|] == y[..|x|];
    } else {
      assert y == beyondY[..|y|] == x[..|y|];
    }
  }

  lemma {:induction false} GrowPrefixFree(kept: seq<string>, parents: seq<string>, counts: seq<nat>, alphabet: string)
    requires |parents| == |counts|
    requires Within(counts, |alphabet|)
    requires PrefixFree(kept + parents) && Distinct(alphabet)
    ensures PrefixFree(kept + Grow(parents, counts, alphabet))
    decreases |parents|
  {
    if parents != [] {
      var children := Children(parents[0], alphabet[..counts[0]]);
      assert kept + parents == kept + [parents[0]] + parents[1..];
      ExpandLeaf(kept, parents[0], parents[1..], alphabet[..counts[0]]);
      GrowPrefixFree(kept + children, parents[1..], counts[1..], alphabet);
      assert kept + Grow(parents, counts, alphabet)
          == kept + children + Grow(parents[1..], counts[1..], alphabet);
    } else {
      assert kept + Grow(parents, counts, alphabet) == kept + parents;
    }
  }

  // ----- words and lengths

  lemma {:induction false} GrowWords(parents: seq<string>, counts: seq<nat>, root: string, alphabet: string, length: nat)
    requires |parents| == |counts|
    requires Within(counts, |alphabet|)
    requires forall p :: p in parents ==> |p| == length && HintWord(p, root, alphabet)
    ensures forall w :: w in Grow(parents, counts, alphabet) ==> |w| == length + 1 && HintWord(w, root, alphabet)
  {
    if parents != [] {
      var parent, letters := parents[0], alphabet[..counts[0]];
      assert parents == [parent] + parents[1..];
      GrowWords(parents[1..], counts[1..], root, alphabet, length);
      assert parent in parents;
      forall w | w in Children(parent, letters) ensures |w| == length + 1 && HintWord(w, root, alphabet) {
        var i :| 0 <= i < |letters| && w == parent + [letters[i]];
        assert w[1..] == parent[1..] + [letters[i]] && letters[i] in alphabet;
      }
    }
  }

  lemma {:induction false} FixedWidthCode(root: string, alphabet: string, width: nat)
    requires width > 0 && Distinct(root) && Distinct(alphabet)
    ensures Code(FixedWidth(root, alphabet, width), root, alphabet)
    ensures forall w :: w in FixedWidth(root, alphabet, width) ==> |w| == width
  {
    if width == 1 {
      var words := Letters(root);
      forall w | w in words ensures HintWord(w, root, alphabet) && |w| == 1 {
        var i :| 0 <= i < |root| && w == [root[i]];
      }
      assert forall i, j :: 0 <= i < |words| && 0 <= j < |words| && i != j ==> words[i][0] != words[j][0];
    } else {
      var prefixes := FixedWidth(root, alphabet, width - 1);
      var counts := Repeat(|alphabet|, |prefixes|);
      FixedWidthCode(root, alphabet, width - 1);
      GrowWords(prefixes, counts, root, alphabet, width - 1);
      assert [] + prefixes == prefixes;
      GrowPrefixFree([], prefixes, counts, alphabet);
      assert [] + Grow(prefixes, counts, alphabet) == Grow(prefixes, counts, alphabet);
    }
  }

  lemma {:induction false} TotalOfConcat(a: seq<string>, b: seq<string>)
    ensures TotalLength(a + b) == TotalLength(a) + TotalLength(b)
  {
    if a == [] {
      assert a + b == b;
    } else {
      assert (a + b)[1..] == a[1..] + b;
      TotalOfConcat(a[1..], b);
    }
  }

  lemma {:induction false} TotalOfEqual(words: seq<string>, length: nat)
    requires forall w :: w in words ==> |w| == length
    ensures TotalLength(words) == |words| * length
  {
    if words != [] {
      TotalOfEqual(words[1..], length);
      OneMore(|words| - 1, length);
    }
  }

  // ----- the shape of the generated codes

  /** `short` of the codes have length depth-1 and come first; the rest have length depth. */
  ghost predicate TwoLengths(codes: seq<string>, depth: nat, short: nat) {
    && short <= |codes|
    && (forall i :: 0 <= i < short ==> |codes[i]| == depth - 1)
    && (forall i :: short <= i < |codes| ==> |codes[i]| == depth)
  }

  /** How many codes stay one letter short of the deepest level. */
  ghost function ShortCount(count: nat, roots: nat, letters: nat): nat
    requires count > 0 && roots > 0 && letters >= 2
  {
    var depth := Depth(count, roots, letters);
    DepthFits(count, roots, letters);
    if depth == 1 then 0 else RetainedCount(count, Capacity(roots, letters, depth - 1), letters)
  }

  /** Exactly `count` prefix-free codes of two adjacent lengths, shorter ones first, the deepest level in use. */
  lemma CompactShape(count: nat, root: string, alphabet: string)
    requires count > 0 && root != "" && |alphabet| >= 2
    requires Distinct(root) && Distinct(alphabet)
    ensures var codes := CompactCodes(count, root, alphabet);
            var short := ShortCount(count, |root|, |alphabet|);
            && |codes| == count
            && Code(codes, root, alphabet)
            && TwoLengths(codes, Depth(count, |root|, |alphabet|), short)
            && short < count
  {
    var depth := Depth(count, |root|, |alphabet|);
    DepthFits(count, |root|, |alphabet|);
    if depth == 1 {
      ShallowShape(count, root, alphabet);
    } else {
      FixedWidthCount(root, alphabet, depth - 1);
      FixedWidthCode(root, alphabet, depth - 1);
      DeepShape(count, FixedWidth(root, alphabet, depth - 1), root, alphabet, depth);
    }
  }

  lemma ShallowShape(count: nat, root: string, alphabet: string)
    requires count <= |root| && Distinct(root) && Distinct(alphabet)
    ensures Code(Letters(root)[..count], root, alphabet) && TwoLengths(Letters(root)[..count], 1, 0)
  {
    FixedWidthCode(root, alphabet, 1);
    var codes := Letters(root)[..count];
    assert forall w :: w in codes ==> w in Letters(root);
  }

  lemma DeepShape(count: nat, shallow: seq<string>, root: string, alphabet: string, depth: nat)
    requires |alphabet| >= 2 && |shallow| < count <= |alphabet| * |shallow|
    requires depth > 0 && Distinct(alphabet)
    requires Code(shallow, root, alphabet) && forall w :: w in shallow ==> |w| == depth - 1
    ensures var codes := DeepCodes(count, shallow, alphabet);
            var short := RetainedCount(count, |shallow|, |alphabet|);
            && |codes| == count
            && Code(codes, root, alphabet)
            && TwoLengths(codes, depth, short)
            && short < count
  {
    GrownShape(shallow, RetainedCount(count, |shallow|, |alphabet|), count, root, alphabet, depth);
  }

  lemma GrownShape(shallow: seq<string>, retained: nat, count: nat, root: string, alphabet: string, depth: nat)
    requires |alphabet| >= 2 && depth > 0 && Distinct(alphabet)
    requires Code(shallow, root, alphabet) && forall w :: w in shallow ==> |w| == depth - 1
    requires retained <= |shallow| && ToHandOut(|shallow| - retained, count - retained, |alphabet|)
    ensures var codes := shallow[..retained] + Handed(shallow[retained..], count - retained, alphabet);
            && |codes| == count
            && Code(codes, root, alphabet)
            && TwoLengths(codes, depth, retained)
  {
    KeptAndGrown(shallow, retained, ChildCounts(|shallow| - retained, count - retained, |alphabet|), root, alphabet, depth);
  }

  lemma KeptAndGrown(shallow: seq<string>, retained: nat, counts: seq<nat>, root: string, alphabet: string, depth: nat)
    requires depth > 0 && Distinct(alphabet)
    requires Code(shallow, root, alphabet) && forall w :: w in shallow ==> |w| == depth - 1
    requires retained + |counts| == |shallow| && Within(counts, |alphabet|)
    ensures var codes := shallow[..retained] + Grow(shallow[retained..], counts, alphabet);
            && |codes| == retained + Sum(counts)
            && Code(codes, root, alphabet)
            && TwoLengths(codes, depth, retained)
  {
    var kept, parents := shallow[..retained], shallow[retained..];
    assert shallow == kept + parents;
    GrowPrefixFree(kept, parents, counts, alphabet);
    GrowWords(parents, counts, root, alphabet, depth - 1);
    GrowCount(parents, counts, alphabet);
    JoinedLengths(kept, Grow(parents, counts, alphabet), depth);
  }

  lemma JoinedLengths(kept: seq<string>, grown: seq<string>, depth: nat)
    requires depth > 0
    requires forall w :: w in kept ==> |w| == depth - 1
    requires forall w :: w in grown ==> |w| == depth
    ensures TwoLengths(kept + grown, depth, |kept|)
  {
    var codes := kept + grown;
    assert forall i :: 0 <= i < |kept| ==> codes[i] == kept[i] && kept[i] in kept;
    assert forall i :: |kept| <= i < |codes| ==> codes[i] == grown[i - |kept|] && grown[i - |kept|] in grown;
  }

  lemma TotalOfTwoLengths(codes: seq<string>, depth: nat, short: nat)
    requires depth > 0 && TwoLengths(codes, depth, short)
    ensures TotalLength(codes) == |codes| * depth - short
  {
    var head, tail := codes[..short], codes[short..];
    assert codes == head + tail;
    TotalOfConcat(head, tail);
    forall w | w in head ensures |w| == depth - 1 {
      var i :| 0 <= i < short && codes[i] == w;
    }
    forall w | w in tail ensures |w| == depth {
      var i :| short <= i < |codes| && codes[i] == w;
    }
    TotalOfTwoParts(head, tail, depth);
  }

  lemma TotalOfTwoParts(head: seq<string>, tail: seq<string>, depth: nat)
    requires depth > 0
    requires forall w :: w in head ==> |w| == depth - 1
    requires forall w :: w in tail ==> |w| == depth
    ensures TotalLength(head) + TotalLength(tail) == (|head| + |tail|) * depth - |head|
  {
    TotalOfEqual(head, depth - 1);
    TotalOfEqual(tail, depth);
    TwoLengthsArithmetic(|head|, |tail|, depth, TotalLength(head), TotalLength(tail));
  }

  lemma TwoLengthsArithmetic(short: int, long: int, depth: int, shortTotal: int, longTotal: int)
    requires shortTotal == short * (depth - 1) && longTotal == long * depth
    ensures shortTotal + longTotal == (short + long) * depth - short
  {
    Distribute(short, depth, -1);
    Distribute(depth, short, long);
  }

  /** ShortCount is the most short codes that leave room for `count` in all. */
  lemma ShortCountIsMost(count: nat, roots: nat, letters: nat)
    requires count > 0 && roots > 0 && letters >= 2
    ensures var depth := Depth(count, roots, letters);
            depth > 1 ==>
              Capacity(roots, letters, depth) < count + (letters - 1) * (ShortCount(count, roots, letters) + 1)
  {
    var depth := Depth(count, roots, letters);
    DepthFits(count, roots, letters);
    if depth > 1 {
      var shallow := Capacity(roots, letters, depth - 1);
      ExpansionFits(count, shallow, letters);
      var expanded := ExpandedCount(count - shallow, letters);
      CeilingDivision(count - shallow, letters);
      Regroup(letters, roots, Pow(letters, depth - 2));
      Distribute(letters - 1, shallow - expanded, expanded);
      Distribute(letters - 1, shallow - expanded, 1);
      OneMore(letters - 1, shallow);
    }
  }

  lemma {:induction false} LengthsAtLeastOne(words: seq<string>, root: string, alphabet: string)
    requires forall w :: w in words ==> HintWord(w, root, alphabet)
    ensures TotalLength(words) >= |words|
  {
    if words != [] {
      LengthsAtLeastOne(words[1..], root, alphabet);
      assert words[0] in words;
    }
  }

  // ----- what the codes are for

  /** No prefix-free choice of as many hint words takes fewer keystrokes in all. */
  lemma LeastKeystrokes(count: nat, root: string, alphabet: string, other: seq<string>)
    requires root != "" && |alphabet| >= 2 && Distinct(root) && Distinct(alphabet)
    requires Code(other, root, alphabet) && |other| == count
    ensures TotalLength(CompactCodes(count, root, alphabet)) <= TotalLength(other)
  {
    if count > 0 {
      var depth := Depth(count, |root|, |alphabet|);
      var short := ShortCount(count, |root|, |alphabet|);
      DepthFits(count, |root|, |alphabet|);
      CompactShape(count, root, alphabet);
      TotalOfTwoLengths(CompactCodes(count, root, alphabet), depth, short);
      NoFewerKeystrokes(count, root, alphabet, other);
    }
  }

  lemma NoFewerKeystrokes(count: nat, root: string, alphabet: string, other: seq<string>)
    requires count > 0 && root != "" && |alphabet| >= 2
    requires Code(other, root, alphabet) && |other| == count
    ensures count * Depth(count, |root|, |alphabet|) - ShortCount(count, |root|, |alphabet|) <= TotalLength(other)
  {
    var depth := Depth(count, |root|, |alphabet|);
    DepthFits(count, |root|, |alphabet|);
    if depth == 1 {
      LengthsAtLeastOne(other, root, alphabet);
    } else {
      KeystrokeBound(other, root, alphabet, depth);
      ShortCountIsMost(count, |root|, |alphabet|);
      FewerKeystrokes(count, |alphabet|, depth, ShortCount(count, |root|, |alphabet|), TotalLength(other),
                      Capacity(|root|, |alphabet|, depth));
    }
  }

  lemma FewerKeystrokes(count: nat, letters: nat, depth: nat, short: nat, other: nat, capacity: nat)
    requires letters >= 2
    requires count + (letters - 1) * (count * depth - other) <= capacity
    requires capacity < count + (letters - 1) * (short + 1)
    ensures count * depth - short <= other
  {
    StrictlyCancel(letters - 1, count * depth - other, short + 1);
  }

  lemma StrictlyCancel(k: int, a: int, b: int)
    requires k > 0 && k * a < k * b
    ensures a < b
  {
    if a >= b { Monotone(k, b, a); }
  }

  /** No prefix-free choice of as many hint words keeps its longest word shorter. */
  lemma ShortestLongest(count: nat, root: string, alphabet: string, other: seq<string>, longest: nat)
    requires count > 0 && root != "" && |alphabet| >= 2 && Distinct(root) && Distinct(alphabet)
    requires Code(other, root, alphabet) && |other| == count && AtMost(other, longest)
    ensures AtMost(CompactCodes(count, root, alphabet), Depth(count, |root|, |alphabet|))
    ensures Depth(count, |root|, |alphabet|) <= longest
  {
    var depth := Depth(count, |root|, |alphabet|);
    CompactShape(count, root, alphabet);
    DepthFits(count, |root|, |alphabet|);
    assert other[0] in other;
    CodeCapacity(other, root, alphabet, longest);
    if longest < depth {
      CapacityGrows(|root|, |alphabet|, longest, depth - 1);
    }
  }

  // ----- the loops

  method FixedWidthHintCodes(root: string, alphabet: string, width: nat) returns (codes: seq<string>)
    requires width > 0
    ensures codes == FixedWidth(root, alphabet, width)
  {
    codes := Letters(root);
    var depth := 1;
    while depth < width
      invariant 1 <= depth <= width
      invariant codes == FixedWidth(root, alphabet, depth)
    {
      codes := Grow(codes, Repeat(|alphabet|, |codes|), alphabet);
      depth := depth + 1;
    }
  }

  method CompactHintCodes(count: nat, root: string, alphabet: string) returns (codes: seq<string>)
    requires |alphabet| >= 2
    requires count > 0 ==> root != ""
    ensures codes == CompactCodes(count, root, alphabet)
  {
    if count == 0 {
      return [];
    }
    var maximumDepth := FindDepth(count, |root|, |alphabet|);
    DepthFits(count, |root|, |alphabet|);
    if maximumDepth == 1 {
      return Letters(root)[..count];
    }

    var shallowCodes := FixedWidthHintCodes(root, alphabet, maximumDepth - 1);
    FixedWidthCount(root, alphabet, maximumDepth - 1);
    codes := ExpandTail(count, shallowCodes, alphabet);
  }

  /** The capacity loop: one level deeper while `count` codes do not fit. */
  method FindDepth(count: nat, roots: nat, letters: nat) returns (maximumDepth: nat)
    requires roots > 0 && letters >= 2
    ensures maximumDepth == Depth(count, roots, letters)
  {
    maximumDepth := 1;
    var maximumCapacity := roots;
    while count > maximumCapacity
      invariant maximumCapacity > 0
      invariant Depth(count, roots, letters) == DepthFrom(count, maximumCapacity, letters, maximumDepth)
      decreases count - maximumCapacity
    {
      Monotone(maximumCapacity, 2, letters);
      maximumDepth := maximumDepth + 1;
      maximumCapacity := maximumCapacity * letters;
    }
  }

  /** The last shallow leaves expanded, as few of them as make `count` leaves. */
  method ExpandTail(count: nat, shallowCodes: seq<string>, alphabet: string) returns (codes: seq<string>)
    requires |alphabet| >= 2 && |shallowCodes| < count <= |alphabet| * |shallowCodes|
    ensures codes == DeepCodes(count, shallowCodes, alphabet)
  {
    ExpansionFits(count, |shallowCodes|, |alphabet|);
    var expandedCount := ExpandedCount(count - |shallowCodes|, |alphabet|);
    var retainedCount := |shallowCodes| - expandedCount;
    assert retainedCount == RetainedCount(count, |shallowCodes|, |alphabet|);
    codes := HandOutChildren(shallowCodes[..retainedCount], shallowCodes[retainedCount..], count - retainedCount, alphabet);
  }

  /** The loop that hands children out, one expanded leaf after another. */
  method HandOutChildren(retained: seq<string>, expandedCodes: seq<string>, needed: int, alphabet: string)
    returns (codes: seq<string>)
    requires |alphabet| >= 2 && ToHandOut(|expandedCodes|, needed, |alphabet|)
    ensures codes == retained + Handed(expandedCodes, needed, alphabet)
  {
    codes := retained;
    var childrenNeeded := needed;
    var index := 0;
    ghost var deep := retained + Handed(expandedCodes, needed, alphabet);
    assert expandedCodes[0..] == expandedCodes;
    while index < |expandedCodes|
      invariant 0 <= index <= |expandedCodes|
      invariant ToHandOut(|expandedCodes| - index, childrenNeeded, |alphabet|)
      invariant deep == codes + Handed(expandedCodes[index..], childrenNeeded, alphabet)
    {
      var remainingParents := |expandedCodes| - index - 1;
      var childCount := if |alphabet| <= childrenNeeded - remainingParents * 2
                        then |alphabet| else childrenNeeded - remainingParents * 2;
      HandNext(expandedCodes, index, childrenNeeded, alphabet, codes);
      codes := PushChildren(codes, expandedCodes[index], childCount, alphabet);
      childrenNeeded := childrenNeeded - childCount;
      index := index + 1;
    }
    NothingToHandOut(expandedCodes[index..], childrenNeeded, alphabet);
    assert codes + [] == codes;
  }

  lemma NothingToHandOut(parents: seq<string>, needed: int, alphabet: string)
    requires |alphabet| >= 2 && parents == [] && ToHandOut(|parents|, needed, |alphabet|)
    ensures Handed(parents, needed, alphabet) == []
  {
  }

  /** One turn of the loop: the next leaf's share, and what it leaves for the others. */
  lemma HandOne(parents: seq<string>, needed: int, alphabet: string)
    requires |alphabet| >= 2 && parents != [] && ToHandOut(|parents|, needed, |alphabet|)
    ensures var spare := needed - (|parents| - 1) * 2;
            var share := if |alphabet| <= spare then |alphabet| else spare;
            && 2 <= share <= |alphabet|
            && ToHandOut(|parents| - 1, needed - share, |alphabet|)
            && Handed(parents, needed, alphabet)
               == Children(parents[0], alphabet[..share]) + Handed(parents[1..], needed - share, alphabet)
  {
    OneMore(|parents| - 1, |alphabet|);
    Monotone(|parents| - 1, 2, |alphabet|);
    var counts := ChildCounts(|parents|, needed, |alphabet|);
    assert counts[1..] == ChildCounts(|parents| - 1, needed - counts[0], |alphabet|);
  }

  lemma HandNext(parents: seq<string>, index: nat, needed: int, alphabet: string, sofar: seq<string>)
    requires |alphabet| >= 2 && index < |parents| && ToHandOut(|parents| - index, needed, |alphabet|)
    ensures var spare := needed - (|parents| - index - 1) * 2;
            var share := if |alphabet| <= spare then |alphabet| else spare;
            && 2 <= share <= |alphabet|
            && ToHandOut(|parents| - index - 1, needed - share, |alphabet|)
            && sofar + Handed(parents[index..], needed, alphabet)
               == sofar + Children(parents[index], alphabet[..share]) + Handed(parents[index + 1..], needed - share, alphabet)
  {
    HandOne(parents[index..], needed, alphabet);
    assert parents[index..][1..] == parents[index + 1..];
  }

  method PushChildren(codes: seq<string>, parent: string, childCount: nat, alphabet: string)
    returns (longer: seq<string>)
    requires childCount <= |alphabet|
    ensures longer == codes + Children(parent, alphabet[..childCount])
  {
    longer := codes;
    var letter := 0;
    while letter < childCount
      invariant 0 <= letter <= childCount
      invariant longer == codes + Children(parent, alphabet[..letter])
    {
      longer := longer + [parent + [alphabet[letter]]];
      letter := letter + 1;
    }
  }

  // ----- fixed-width suffixes by index

  lemma DivMod(n: nat, k: nat)
    requires k > 0
    ensures 0 <= n / k && 0 <= n % k < k && n == (n / k) * k + n % k
  {
  }

  /** The base-|alphabet| digits of `index`, most significant first. */
  ghost function Digits(index: nat, width: nat, alphabet: string): string
    requires alphabet != ""
    decreases width
  {
    DivMod(index, |alphabet|);
    if width == 0 then "" else Digits(index / |alphabet|, width - 1, alphabet) + [alphabet[index % |alphabet|]]
  }

  lemma {:induction false} GrowAt(parents: seq<string>, alphabet: string, parent: nat, letter: nat)
    requires parent < |parents| && letter < |alphabet|
    ensures var grown := Grow(parents, Repeat(|alphabet|, |parents|), alphabet);
            parent * |alphabet| + letter < |grown|
            && grown[parent * |alphabet| + letter] == parents[parent] + [alphabet[letter]]
  {
    var k := |alphabet|;
    var counts := Repeat(k, |parents|);
    assert counts[1..] == Repeat(k, |parents| - 1);
    assert alphabet[..counts[0]] == alphabet;
    if parent > 0 {
      GrowAt(parents[1..], alphabet, parent - 1, letter);
      OneMore(parent - 1, k);
    }
  }

  lemma QuotientBelow(n: nat, k: nat, bound: nat)
    requires k > 0 && n < k * bound
    ensures n / k < bound
  {
    DivMod(n, k);
    if n / k >= bound { Monotone(k, bound, n / k); }
  }

  lemma LetterAt(alphabet: string, index: nat)
    requires index < |alphabet|
    ensures Letters(alphabet)[index] == Digits(index, 1, alphabet)
  {
    DivMod(index, |alphabet|);
    SmallQuotient(index, |alphabet|);
    assert Digits(0, 0, alphabet) + [alphabet[index]] == [alphabet[index]];
  }

  lemma SmallQuotient(n: nat, k: nat)
    requires n < k
    ensures n / k == 0 && n % k == n
  {
  }

  /** Counting through the fixed-width words is counting in base |alphabet|. */
  lemma {:induction false} FixedWidthAt(alphabet: string, width: nat, index: nat)
    requires alphabet != "" && width > 0 && index < Pow(|alphabet|, width)
    ensures index < |FixedWidth(alphabet, alphabet, width)|
    ensures FixedWidth(alphabet, alphabet, width)[index] == Digits(index, width, alphabet)
  {
    var k := |alphabet|;
    FixedWidthCount(alphabet, alphabet, width);
    if width == 1 {
      assert Pow(k, 1) == k * Pow(k, 0) == k;
      LetterAt(alphabet, index);
    } else {
      DivMod(index, k);
      QuotientBelow(index, k, Pow(k, width - 1));
      FixedWidthAt(alphabet, width - 1, index / k);
      DigitsOn(FixedWidth(alphabet, alphabet, width - 1), alphabet, index, width);
    }
  }

  lemma DigitsOn(parents: seq<string>, alphabet: string, index: nat, width: nat)
    requires alphabet != "" && width > 1 && index / |alphabet| >= 0
    requires index / |alphabet| < |parents| && parents[index / |alphabet|] == Digits(index / |alphabet|, width - 1, alphabet)
    ensures var grown := Grow(parents, Repeat(|alphabet|, |parents|), alphabet);
            index < |grown| && grown[index] == Digits(index, width, alphabet)
  {
    DivMod(index, |alphabet|);
    GrowAt(parents, alphabet, index / |alphabet|, index % |alphabet|);
  }

  datatype SuffixResult = Suffix(text: string) | IndexTooLarge | WidthNotPositive

  method TaskHintSuffix(index: nat, width: nat, alphabet: string) returns (r: SuffixResult)
    requires alphabet != ""
    ensures r.WidthNotPositive? <==> width == 0
    ensures r.IndexTooLarge? <==> width > 0 && index >= |FixedWidth(alphabet, alphabet, width)|
    ensures r.Suffix? ==> r.text == FixedWidth(alphabet, alphabet, width)[index]
  {
    if width < 1 {
      return WidthNotPositive;
    }
    FixedWidthCount(alphabet, alphabet, width);
    assert Pow(|alphabet|, width) == Capacity(|alphabet|, |alphabet|, width);
    if index >= Pow(|alphabet|, width) {
      return IndexTooLarge;
    }
    FixedWidthAt(alphabet, width, index);
    var value, suffix, place := index, "", 0;
    while place < width
      invariant 0 <= place <= width && value >= 0
      invariant Digits(value, width - place, alphabet) + suffix == Digits(index, width, alphabet)
    {
      DivMod(value, |alphabet|);
      suffix := [alphabet[value % |alphabet|]] + suffix;
      value := value / |alphabet|;
      place := place + 1;
    }
    return Suffix(suffix);
  }
}
