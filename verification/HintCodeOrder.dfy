/** Which words the hint code generator picks, by their letters and places in alphabet order. */
module HintCodeOrder {
  import opened HintWords
  import opened HintCodes

  // ----- words in alphabet order

  lemma CapacityStep(roots: nat, letters: nat, width: nat)
    requires width > 1
    ensures Capacity(roots, letters, width) == letters * Capacity(roots, letters, width - 1)
  {
    Regroup(roots, letters, Pow(letters, width - 2));
  }

  /** The n-th word of a width in alphabet order, counting from zero: its last letter changes fastest. */
  function NthWord(root: string, alphabet: string, width: nat, n: nat): (word: string)
    requires width > 0 && alphabet != "" && n < Capacity(|root|, |alphabet|, width)
    ensures |word| == width
  {
    if width == 1 then [root[n]]
    else
      CapacityStep(|root|, |alphabet|, width);
      QuotientBelow(n, |alphabet|, Capacity(|root|, |alphabet|, width - 1));
      DivMod(n, |alphabet|);
      NthWord(root, alphabet, width - 1, n / |alphabet|) + [alphabet[n % |alphabet|]]
  }

  lemma {:induction false} FixedWidthNth(root: string, alphabet: string, width: nat, n: nat)
    requires width > 0 && alphabet != "" && n < Capacity(|root|, |alphabet|, width)
    ensures |FixedWidth(root, alphabet, width)| == Capacity(|root|, |alphabet|, width)
    ensures FixedWidth(root, alphabet, width)[n] == NthWord(root, alphabet, width, n)
  {
    FixedWidthCount(root, alphabet, width);
    if width > 1 {
      var k := |alphabet|;
      CapacityStep(|root|, k, width);
      QuotientBelow(n, k, Capacity(|root|, k, width - 1));
      FixedWidthNth(root, alphabet, width - 1, n / k);
      DivMod(n, k);
      GrowAt(FixedWidth(root, alphabet, width - 1), alphabet, n / k, n % k);
    }
  }

  // ----- shares of children

  /** Every share is full until one is not, and after that every share is two. */
  ghost predicate FullFirst(shares: seq<nat>, letters: nat) {
    forall i, j :: 0 <= i < j < |shares| && shares[i] < letters ==> shares[j] == 2
  }

  lemma FirstShareFits(parents: nat, needed: int, letters: nat, all: int, others: int)
    requires parents > 0 && letters >= 2 && all == others + letters && 2 * parents <= needed <= all
    requires 2 * (parents - 1) <= others
    ensures var first := if letters <= needed - (parents - 1) * 2 then letters else needed - (parents - 1) * 2;
            && 2 <= first <= letters && 2 * (parents - 1) <= needed - first <= others
            && (first < letters ==> needed - first == 2 * (parents - 1))
  {
  }

  lemma FirstShare(parents: nat, needed: int, letters: nat) returns (first: nat)
    requires parents > 0 && letters >= 2 && ToHandOut(parents, needed, letters)
    ensures 2 <= first <= letters && ToHandOut(parents - 1, needed - first, letters)
    ensures ChildCounts(parents, needed, letters) == [first] + ChildCounts(parents - 1, needed - first, letters)
    ensures first < letters ==> needed - first == 2 * (parents - 1)
  {
    OneMore(parents - 1, letters);
    Monotone(parents - 1, 2, letters);
    FirstShareFits(parents, needed, letters, letters * parents, letters * (parents - 1));
    first := if letters <= needed - (parents - 1) * 2 then letters else needed - (parents - 1) * 2;
  }

  lemma {:induction false} AllTwos(parents: nat, needed: int, letters: nat)
    requires letters >= 2 && needed == 2 * parents && ToHandOut(parents, needed, letters)
    ensures forall i :: 0 <= i < parents ==> ChildCounts(parents, needed, letters)[i] == 2
  {
    if parents > 0 {
      var first := FirstShare(parents, needed, letters);
      AllTwos(parents - 1, needed - first, letters);
    }
  }

  lemma {:induction false} ChildCountsFullFirst(parents: nat, needed: int, letters: nat) returns (counts: seq<nat>)
    requires letters >= 2 && ToHandOut(parents, needed, letters)
    ensures counts == ChildCounts(parents, needed, letters) && FullFirst(counts, letters)
    decreases parents
  {
    if parents == 0 {
      counts := [];
    } else {
      var first := FirstShare(parents, needed, letters);
      var left, more := parents - 1, needed - first;
      assert ToHandOut(left, more, letters) && (first < letters ==> more == 2 * left);
      var rest := ChildCountsFullFirst(left, more, letters);
      counts := JoinShares(first, left, more, letters, rest);
    }
  }

  lemma JoinShares(first: nat, parents: nat, needed: int, letters: nat, rest: seq<nat>) returns (counts: seq<nat>)
    requires letters >= 2 && ToHandOut(parents, needed, letters) && rest == ChildCounts(parents, needed, letters)
    requires FullFirst(rest, letters) && (first < letters ==> needed == 2 * parents)
    ensures counts == [first] + rest && FullFirst(counts, letters)
  {
    if first < letters {
      AllTwos(parents, needed, letters);
    }
    FullThenRest(first, rest, letters);
    counts := [first] + rest;
  }

  lemma FullThenRest(first: nat, rest: seq<nat>, letters: nat)
    requires FullFirst(rest, letters) && (first < letters ==> forall i :: 0 <= i < |rest| ==> rest[i] == 2)
    ensures FullFirst([first] + rest, letters)
  {
    var counts := [first] + rest;
    forall i, j | 0 <= i < j < |counts| && counts[i] < letters ensures counts[j] == 2 {
      if i > 0 { assert counts[i] == rest[i - 1] && counts[j] == rest[j - 1]; }
    }
  }

  /** The c-th child of the p-th parent comes after all children of the parents before. */
  lemma {:induction false} GrowPlace(parents: seq<string>, counts: seq<nat>, alphabet: string, p: nat, c: nat)
    requires |parents| == |counts| && Within(counts, |alphabet|) && p < |counts| && c < counts[p]
    ensures Sum(counts[..p]) + c < |Grow(parents, counts, alphabet)|
    ensures Grow(parents, counts, alphabet)[Sum(counts[..p]) + c] == parents[p] + [alphabet[c]]
  {
    if p > 0 {
      GrowPlace(parents[1..], counts[1..], alphabet, p - 1, c);
      assert counts[..p][1..] == counts[1..][..p - 1];
    }
  }

  // ----- the codes

  /** While the root letters are enough, the codes are the first of them. */
  lemma FewCodes(count: nat, root: string, alphabet: string, i: nat)
    requires i < count <= |root| && |alphabet| >= 2
    ensures |CompactCodes(count, root, alphabet)| == count && CompactCodes(count, root, alphabet)[i] == [root[i]]
  {
  }

  /** The c-th child of the p-th word past the short codes, after all children of the words before. */
  ghost predicate ChildPlaced(codes: seq<string>, root: string, alphabet: string, width: nat, short: nat, shares: seq<nat>,
                              p: nat, c: nat)
    requires width > 0 && alphabet != ""
    requires p < |shares| && short + |shares| == Capacity(|root|, |alphabet|, width)
  {
    var place := short + Sum(shares[..p]) + c;
    && c < |alphabet| && place < |codes|
    && codes[place] == NthWord(root, alphabet, width, short + p) + [alphabet[c]]
  }

  /** Where the codes of two lengths go. */
  ghost predicate Placed(codes: seq<string>, root: string, alphabet: string, width: nat, short: nat, shares: seq<nat>)
    requires width > 0 && alphabet != ""
  {
    && short + |shares| == Capacity(|root|, |alphabet|, width)
    && |codes| == short + Sum(shares)
    && (forall i :: 0 <= i < short ==> codes[i] == NthWord(root, alphabet, width, i))
    && (forall p: nat, c: nat :: p < |shares| && c < shares[p] ==>
          ChildPlaced(codes, root, alphabet, width, short, shares, p, c))
  }

  /**
   * Past the root letters: the i-th short code is the i-th word of its length in alphabet order, and the words
   * after the short ones have their children follow in the same order, each word its first letters' children,
   * all of them while there are enough to leave two for every later word.
   */
  lemma CompactWords(count: nat, root: string, alphabet: string) returns (short: nat, shares: seq<nat>)
    requires count > |root| > 0 && |alphabet| >= 2
    ensures var depth := Depth(count, |root|, |alphabet|);
            && depth > 1
            && Placed(CompactCodes(count, root, alphabet), root, alphabet, depth - 1, short, shares)
    ensures short + Sum(shares) == count
    ensures FullFirst(shares, |alphabet|) && forall p :: 0 <= p < |shares| ==> 2 <= shares[p] <= |alphabet|
  {
    var width := Depth(count, |root|, |alphabet|) - 1;
    CompactIsDeep(count, root, alphabet);
    short, shares := DeepWords(count, FixedWidth(root, alphabet, width), root, alphabet, width);
  }

  lemma CompactIsDeep(count: nat, root: string, alphabet: string)
    requires count > |root| > 0 && |alphabet| >= 2
    ensures var depth := Depth(count, |root|, |alphabet|);
            && depth > 1
            && var shallow := FixedWidth(root, alphabet, depth - 1);
               && |shallow| == Capacity(|root|, |alphabet|, depth - 1)
               && |shallow| < count <= |alphabet| * |shallow|
               && CompactCodes(count, root, alphabet) == DeepCodes(count, shallow, alphabet)
  {
    PastRoots(count, |root|, |alphabet|);
    FixedWidthCount(root, alphabet, Depth(count, |root|, |alphabet|) - 1);
  }

  lemma DeepWords(count: nat, shallow: seq<string>, root: string, alphabet: string, width: nat)
    returns (short: nat, shares: seq<nat>)
    requires width > 0 && |alphabet| >= 2 && shallow == FixedWidth(root, alphabet, width)
    requires |shallow| == Capacity(|root|, |alphabet|, width) && |shallow| < count <= |alphabet| * |shallow|
    ensures Placed(DeepCodes(count, shallow, alphabet), root, alphabet, width, short, shares)
    ensures short + Sum(shares) == count
    ensures FullFirst(shares, |alphabet|) && forall p :: 0 <= p < |shares| ==> 2 <= shares[p] <= |alphabet|
  {
    short := RetainedCount(count, |shallow|, |alphabet|);
    shares := Shares(|shallow| - short, count - short, |alphabet|);
    GrownPlaced(shallow, root, alphabet, width, short, shares);
  }

  lemma Shares(parents: nat, needed: int, letters: nat) returns (shares: seq<nat>)
    requires letters >= 2 && ToHandOut(parents, needed, letters)
    ensures shares == ChildCounts(parents, needed, letters)
    ensures |shares| == parents && Sum(shares) == needed && FullFirst(shares, letters)
    ensures Within(shares, letters) && forall p :: 0 <= p < |shares| ==> 2 <= shares[p] <= letters
  {
    shares := ChildCountsFullFirst(parents, needed, letters);
  }

  lemma PastRoots(count: nat, roots: nat, letters: nat)
    requires count > roots > 0 && letters >= 2
    ensures var depth := Depth(count, roots, letters);
            && depth > 1 && Capacity(roots, letters, depth - 1) < count <= letters * Capacity(roots, letters, depth - 1)
  {
    DepthFits(count, roots, letters);
    assert Capacity(roots, letters, 1) == roots;
  }

  lemma GrownPlaced(shallow: seq<string>, root: string, alphabet: string, width: nat, short: nat, shares: seq<nat>)
    requires width > 0 && alphabet != "" && shallow == FixedWidth(root, alphabet, width)
    requires short + |shares| == |shallow| == Capacity(|root|, |alphabet|, width) && Within(shares, |alphabet|)
    ensures Placed(shallow[..short] + Grow(shallow[short..], shares, alphabet), root, alphabet, width, short, shares)
  {
    var codes := shallow[..short] + Grow(shallow[short..], shares, alphabet);
    GrowCount(shallow[short..], shares, alphabet);
    forall i | 0 <= i < short ensures codes[i] == NthWord(root, alphabet, width, i) {
      FixedWidthNth(root, alphabet, width, i);
    }
    forall p: nat, c: nat | p < |shares| && c < shares[p]
      ensures ChildPlaced(codes, root, alphabet, width, short, shares, p, c)
    {
      GrowPlace(shallow[short..], shares, alphabet, p, c);
      FixedWidthNth(root, alphabet, width, short + p);
    }
  }

  /** Every longer code extends a word that comes after all the short ones. */
  lemma LongCodesExtend(count: nat, root: string, alphabet: string, j: nat) returns (p: nat, c: nat)
    requires count > |root| > 0 && |alphabet| >= 2 && j < |CompactCodes(count, root, alphabet)|
    requires |CompactCodes(count, root, alphabet)[j]| == Depth(count, |root|, |alphabet|)
    ensures var codes, width := CompactCodes(count, root, alphabet), Depth(count, |root|, |alphabet|) - 1;
            && width > 0 && p < Capacity(|root|, |alphabet|, width) && c < |alphabet|
            && codes[j] == NthWord(root, alphabet, width, p) + [alphabet[c]]
            && forall i :: 0 <= i < |codes| && |codes[i]| == width ==>
                 i < p && codes[i] == NthWord(root, alphabet, width, i)
  {
    var width := Depth(count, |root|, |alphabet|) - 1;
    var short, shares := CompactWords(count, root, alphabet);
    var codes := CompactCodes(count, root, alphabet);
    assert j >= short;
    p, c := LongPlace(codes, root, alphabet, width, short, shares, j);
    forall i | 0 <= i < |codes| && |codes[i]| == width ensures i < p && codes[i] == NthWord(root, alphabet, width, i) {
      LongOnly(codes, root, alphabet, width, short, shares, i);
    }
  }

  lemma LongOnly(codes: seq<string>, root: string, alphabet: string, width: nat, short: nat, shares: seq<nat>, i: nat)
    requires width > 0 && alphabet != "" && Placed(codes, root, alphabet, width, short, shares) && i < |codes|
    ensures i >= short ==> |codes[i]| == width + 1
  {
    if i >= short {
      var _, _ := LongPlace(codes, root, alphabet, width, short, shares, i);
    }
  }

  lemma {:induction false} ShareOf(shares: seq<nat>, j: nat) returns (p: nat, c: nat)
    requires j < Sum(shares)
    ensures p < |shares| && c < shares[p] && j == Sum(shares[..p]) + c
  {
    if j < shares[0] {
      p, c := 0, j;
    } else {
      p, c := ShareOf(shares[1..], j - shares[0]);
      assert shares[..p + 1][1..] == shares[1..][..p];
      p := p + 1;
    }
  }

  lemma LongPlace(codes: seq<string>, root: string, alphabet: string, width: nat, short: nat, shares: seq<nat>, j: nat)
    returns (p: nat, c: nat)
    requires width > 0 && alphabet != "" && Placed(codes, root, alphabet, width, short, shares)
    requires short <= j < |codes|
    ensures short <= p < Capacity(|root|, |alphabet|, width) && c < |alphabet|
    ensures codes[j] == NthWord(root, alphabet, width, p) + [alphabet[c]]
  {
    p, c := ShareOf(shares, j - short);
    assert ChildPlaced(codes, root, alphabet, width, short, shares, p, c);
    p := short + p;
  }
}
