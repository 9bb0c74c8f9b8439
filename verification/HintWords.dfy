/** Prefix-free sets of hint words and the Kraft inequality they obey. */
module HintWords {

  function Pow(base: nat, exponent: nat): nat {
    if exponent == 0 then 1 else base * Pow(base, exponent - 1)
  }

  /** No word of the list, at whatever position, begins another one. */
  ghost predicate PrefixFree(words: seq<string>) {
    forall i, j :: 0 <= i < |words| && 0 <= j < |words| && i != j ==> !(words[i] <= words[j])
  }

  ghost predicate Over(word: string, alphabet: string) {
    forall c :: c in word ==> c in alphabet
  }

  /** A word a user can type as a hint: its first letter from `root`, the rest from `alphabet`. */
  ghost predicate HintWord(word: string, root: string, alphabet: string) {
    word != "" && word[0] in root && Over(word[1..], alphabet)
  }

  /** A prefix-free list of hint words. */
  ghost predicate Code(words: seq<string>, root: string, alphabet: string) {
    && (forall w :: w in words ==> HintWord(w, root, alphabet))
    && PrefixFree(words)
  }

  ghost predicate AtMost(words: seq<string>, depth: nat) {
    forall w :: w in words ==> |w| <= depth
  }

  /** The keystrokes needed to type every word once. */
  function TotalLength(words: seq<string>): nat {
    if words == [] then 0 else |words[0]| + TotalLength(words[1..])
  }

  /** How many words of length `depth` extend some word of the list. */
  ghost function Weight(words: seq<string>, base: nat, depth: nat): nat
    requires AtMost(words, depth)
  {
    if words == [] then 0 else Pow(base, depth - |words[0]|) + Weight(words[1..], base, depth)
  }

  // ----- lists split by first letter

  /** What follows `letter` in the words that begin with it. */
  ghost function Tails(words: seq<string>, letter: char): seq<string> {
    if words == [] then []
    else if words[0] != "" && words[0][0] == letter then [words[0][1..]] + Tails(words[1..], letter)
    else Tails(words[1..], letter)
  }

  /** The words that do not begin with `letter`. */
  ghost function Others(words: seq<string>, letter: char): seq<string> {
    if words == [] then []
    else if words[0] != "" && words[0][0] == letter then Others(words[1..], letter)
    else [words[0]] + Others(words[1..], letter)
  }

  lemma {:induction false} PrefixFreeCons(word: string, rest: seq<string>)
    ensures PrefixFree([word] + rest)
            <==> PrefixFree(rest) && forall w :: w in rest ==> !(word <= w) && !(w <= word)
  {
    var all := [word] + rest;
    assert all[0] == word && forall i :: 0 <= i < |rest| ==> all[i + 1] == rest[i];
    if PrefixFree(all) {
      forall i, j | 0 <= i < |rest| && 0 <= j < |rest| && i != j ensures !(rest[i] <= rest[j]) {
        assert !(all[i + 1] <= all[j + 1]);
      }
      forall i | 0 <= i < |rest| ensures !(word <= rest[i]) && !(rest[i] <= word) {
        assert !(all[0] <= all[i + 1]) && !(all[i + 1] <= all[0]);
      }
    }
    if PrefixFree(rest) && forall w :: w in rest ==> !(word <= w) && !(w <= word) {
      forall i, j | 0 <= i < |all| && 0 <= j < |all| && i != j ensures !(all[i] <= all[j]) {
        assert i > 0 ==> all[i] == rest[i - 1] && rest[i - 1] in rest;
        assert j > 0 ==> all[j] == rest[j - 1] && rest[j - 1] in rest;
      }
    }
  }

  lemma {:induction false} TailsMember(words: seq<string>, letter: char)
    ensures forall t :: t in Tails(words, letter) ==> [letter] + t in words
  {
    if words != [] {
      TailsMember(words[1..], letter);
      forall t | t in Tails(words, letter) ensures [letter] + t in words {
        if words[0] != "" && words[0][0] == letter && t == words[0][1..] {
          assert words[0] == [letter] + t;
        }
      }
    }
  }

  lemma {:induction false} TailsPrefixFree(words: seq<string>, letter: char)
    requires PrefixFree(words)
    ensures PrefixFree(Tails(words, letter))
  {
    if words != [] {
      var word, rest := words[0], words[1..];
      assert words == [word] + rest;
      PrefixFreeCons(word, rest);
      TailsPrefixFree(rest, letter);
      if word != "" && word[0] == letter {
        TailsMember(rest, letter);
        assert word == [letter] + word[1..];
        forall t | t in Tails(rest, letter) ensures !(word[1..] <= t) && !(t <= word[1..]) {
          var other := [letter] + t;
          assert other[1..] == t;
          assert word[1..] <= t ==> word <= other;
          assert t <= word[1..] ==> other <= word;
        }
        PrefixFreeCons(word[1..], Tails(rest, letter));
      }
    }
  }

  lemma {:induction false} OthersPrefixFree(words: seq<string>, letter: char)
    requires PrefixFree(words)
    ensures PrefixFree(Others(words, letter))
    ensures forall w :: w in Others(words, letter) <==> w in words && !(w != "" && w[0] == letter)
  {
    if words != [] {
      var word, rest := words[0], words[1..];
      assert words == [word] + rest;
      PrefixFreeCons(word, rest);
      OthersPrefixFree(rest, letter);
      PrefixFreeCons(word, Others(rest, letter));
    }
  }

  lemma {:induction false} WeightSplit(words: seq<string>, letter: char, base: nat, depth: nat)
    requires depth > 0 && AtMost(words, depth)
    ensures AtMost(Tails(words, letter), depth - 1) && AtMost(Others(words, letter), depth)
    ensures Weight(words, base, depth)
            == Weight(Tails(words, letter), base, depth - 1) + Weight(Others(words, letter), base, depth)
  {
    if words != [] {
      var rest := words[1..];
      WeightSplit(rest, letter, base, depth);
      assert words[0] in words;
      if words[0] != "" && words[0][0] == letter {
        WeightCons(words[0][1..], Tails(rest, letter), base, depth - 1);
      } else {
        WeightCons(words[0], Others(rest, letter), base, depth);
      }
    }
  }

  lemma WeightCons(word: string, rest: seq<string>, base: nat, depth: nat)
    requires |word| <= depth && AtMost(rest, depth)
    ensures AtMost([word] + rest, depth)
    ensures Weight([word] + rest, base, depth) == Pow(base, depth - |word|) + Weight(rest, base, depth)
  {
    assert ([word] + rest)[1..] == rest;
  }

  lemma TailsCode(words: seq<string>, letter: char, root: string, alphabet: string)
    requires Code(words, root, alphabet)
    ensures PrefixFree(Tails(words, letter))
    ensures forall t :: t in Tails(words, letter) ==> Over(t, alphabet)
  {
    TailsMember(words, letter);
    TailsPrefixFree(words, letter);
    forall t | t in Tails(words, letter) ensures Over(t, alphabet) {
      assert ([letter] + t)[1..] == t;
    }
  }

  lemma OthersCode(words: seq<string>, root: string, alphabet: string)
    requires Code(words, root, alphabet) && root != ""
    ensures Code(Others(words, root[|root| - 1]), root[..|root| - 1], alphabet)
  {
    var letter := root[|root| - 1];
    OthersPrefixFree(words, letter);
    assert root == root[..|root| - 1] + [letter];
  }

  lemma EmptyWordAlone(words: seq<string>, i: nat)
    requires PrefixFree(words) && i < |words| && words[i] == ""
    ensures |words| == 1
  {
    if |words| > 1 {
      EmptyWordBeginsAll(words, i, if i == 0 then 1 else 0);
    }
  }

  lemma EmptyWordBeginsAll(words: seq<string>, i: nat, j: nat)
    requires i < |words| && j < |words| && i != j && words[i] == ""
    ensures !PrefixFree(words)
  {
    assert words[i] <= words[j];
  }

  lemma SomeMember<T>(s: seq<T>)
    ensures s != [] ==> exists x :: x in s
  {
    assert s != [] ==> s[0] in s;
  }

  // ----- the Kraft inequality

  /** A prefix-free list over the whole alphabet covers at most every word of length `depth`. */
  lemma {:induction false} KraftFull(words: seq<string>, alphabet: string, depth: nat)
    requires PrefixFree(words) && AtMost(words, depth)
    requires forall w :: w in words ==> Over(w, alphabet)
    ensures Weight(words, |alphabet|, depth) <= Pow(|alphabet|, depth)
    decreases depth, |alphabet| + 1
  {
    if "" in words {
      var i :| 0 <= i < |words| && words[i] == "";
      EmptyWordAlone(words, i);
      assert words[1..] == [];
    } else if depth == 0 {
      SomeMember(words);
    } else {
      KraftRooted(words, alphabet, alphabet, depth);
    }
  }

  /** Kraft's inequality when the first letter comes from a smaller alphabet. */
  lemma {:induction false} KraftRooted(words: seq<string>, root: string, alphabet: string, depth: nat)
    requires depth > 0
    requires Code(words, root, alphabet) && AtMost(words, depth)
    ensures Weight(words, |alphabet|, depth) <= |root| * Pow(|alphabet|, depth - 1)
    decreases depth, |root|
  {
    if root == "" {
      SomeMember(words);
    } else {
      var letter, fewer := root[|root| - 1], root[..|root| - 1];
      FirstLetterWeight(words, root, alphabet, depth);
      KraftRooted(Others(words, letter), fewer, alphabet, depth);
      OnceMore(Weight(words, |alphabet|, depth), Weight(Others(words, letter), |alphabet|, depth), |fewer|,
               Pow(|alphabet|, depth - 1));
    }
  }

  /** The words that begin with one letter weigh at most a full tree below it. */
  lemma FirstLetterWeight(words: seq<string>, root: string, alphabet: string, depth: nat)
    requires depth > 0 && root != ""
    requires Code(words, root, alphabet) && AtMost(words, depth)
    ensures var others := Others(words, root[|root| - 1]);
            && Code(others, root[..|root| - 1], alphabet) && AtMost(others, depth)
            && Weight(words, |alphabet|, depth) <= Weight(others, |alphabet|, depth) + Pow(|alphabet|, depth - 1)
    decreases depth, 0
  {
    var letter := root[|root| - 1];
    WeightSplit(words, letter, |alphabet|, depth);
    TailsCode(words, letter, root, alphabet);
    KraftFull(Tails(words, letter), alphabet, depth - 1);
    OthersCode(words, root, alphabet);
  }

  lemma OnceMore(total: nat, others: nat, fewer: nat, power: nat)
    requires total <= others + power && others <= fewer * power
    ensures total <= (fewer + 1) * power
  {
    OneMore(fewer, power);
  }

  // ----- what Kraft says about counts and lengths

  lemma {:induction false} PowPositive(base: nat, exponent: nat)
    requires base > 0
    ensures Pow(base, exponent) > 0
  {
    if exponent > 0 { PowPositive(base, exponent - 1); }
  }

  lemma {:induction false} PowAdd(base: nat, a: nat, b: nat)
    ensures Pow(base, a + b) == Pow(base, a) * Pow(base, b)
  {
    if a > 0 {
      PowAdd(base, a - 1, b);
      Regroup(base, Pow(base, a - 1), Pow(base, b));
      Regroup(Pow(base, b), base, Pow(base, a - 1));
    }
  }

  /** The chord bound: K^y >= 1 + (K-1)y, with equality at 0 and 1. */
  lemma {:induction false} PowAboveChord(base: nat, y: nat)
    requires base > 0
    ensures Pow(base, y) >= 1 + (base - 1) * y
  {
    if y > 0 {
      PowAboveChord(base, y - 1);
      var chord := 1 + (base - 1) * (y - 1);
      Monotone(base, chord, Pow(base, y - 1));
      Monotone(base - 1, 1, chord) by {
        Monotone(base - 1, 0, y - 1);
      }
      Distribute(base - 1, y - 1, 1);
      OneMore(base - 1, chord);
    }
  }

  lemma {:induction false} CountUnderWeight(words: seq<string>, base: nat, depth: nat)
    requires base > 0 && AtMost(words, depth)
    ensures |words| <= Weight(words, base, depth)
  {
    if words != [] {
      PowPositive(base, depth - |words[0]|);
      CountUnderWeight(words[1..], base, depth);
    }
  }

  /** No prefix-free list of hint words of length at most `depth` has more words than that depth can name. */
  lemma {:induction false} CodeCapacity(words: seq<string>, root: string, alphabet: string, depth: nat)
    requires depth > 0 && alphabet != ""
    requires Code(words, root, alphabet) && AtMost(words, depth)
    ensures |words| <= |root| * Pow(|alphabet|, depth - 1)
  {
    CountUnderWeight(words, |alphabet|, depth);
    KraftRooted(words, root, alphabet, depth);
  }

  /** One word's share of the weight, bounded below by a line in its length, also past `depth`. */
  lemma {:induction false} WordWeightAboveChord(base: nat, length: nat, depth: nat, longest: nat)
    requires base >= 2 && length <= longest && depth <= longest
    ensures Pow(base, longest - length) >= Pow(base, longest - depth) * (1 + (base - 1) * (depth - length))
  {
    var unit := Pow(base, longest - depth);
    var chord := 1 + (base - 1) * (depth - length);
    PowPositive(base, longest - depth);
    if length <= depth {
      PowAdd(base, longest - depth, depth - length);
      PowAboveChord(base, depth - length);
      Monotone(unit, chord, Pow(base, depth - length));
    } else {
      Monotone(base - 1, depth - length, -1);
      Monotone(unit, chord, 0);
    }
  }

  lemma {:induction false} WeightAboveChord(words: seq<string>, base: nat, depth: nat, longest: nat)
    requires base >= 2 && depth <= longest && AtMost(words, longest)
    ensures Weight(words, base, longest)
            >= Pow(base, longest - depth) * (|words| + (base - 1) * (|words| * depth - TotalLength(words)))
  {
    if words != [] {
      var rest := words[1..];
      WeightAboveChord(rest, base, depth, longest);
      assert words[0] in words;
      WordWeightAboveChord(base, |words[0]|, depth, longest);
      var gap, gaps := depth - |words[0]|, |rest| * depth - TotalLength(rest);
      OneMore(|rest|, depth);
      ChordSum(Pow(base, longest - depth), base - 1, |rest|, gap, gaps);
    }
  }

  lemma ChordSum(unit: int, slope: int, count: int, gap: int, gaps: int)
    ensures unit * (1 + slope * gap) + unit * (count + slope * gaps) == unit * (count + 1 + slope * (gap + gaps))
  {
    Distribute(slope, gap, gaps);
    Distribute(unit, 1 + slope * gap, count + slope * gaps);
  }

  // The few nonlinear facts the proofs above and below need.

  lemma Distribute(k: int, a: int, b: int)
    ensures k * (a + b) == k * a + k * b
  {
  }

  lemma OneMore(n: int, a: int)
    ensures (n + 1) * a == n * a + a
  {
  }

  lemma Monotone(k: int, a: int, b: int)
    requires k >= 0 && a <= b
    ensures k * a <= k * b
  {
    Distribute(k, a, b - a);
  }

  lemma Regroup(a: int, b: int, c: int)
    ensures a * (b * c) == b * (a * c)
  {
  }

  lemma Cancel(k: int, a: int, b: int)
    requires k > 0 && k * a <= k * b
    ensures a <= b
  {
    if a > b {
      Monotone(k, b + 1, a);
      Distribute(k, b, 1);
      assert false;
    }
  }

  ghost function Longest(words: seq<string>, floor: nat): (longest: nat)
    ensures longest >= floor && AtMost(words, longest)
  {
    if words == [] then floor
    else
      var rest := Longest(words[1..], floor);
      assert words == [words[0]] + words[1..];
      if |words[0]| > rest then |words[0]| else rest
  }

  /** Kraft as a bound on keystrokes: a code short by much on average cannot have many words. */
  lemma {:induction false} KeystrokeBound(words: seq<string>, root: string, alphabet: string, depth: nat)
    requires depth > 0 && |alphabet| >= 2
    requires Code(words, root, alphabet)
    ensures |words| + (|alphabet| - 1) * (|words| * depth - TotalLength(words))
            <= |root| * Pow(|alphabet|, depth - 1)
  {
    var longest := Longest(words, depth);
    var unit := Pow(|alphabet|, longest - depth);
    var slack := |words| + (|alphabet| - 1) * (|words| * depth - TotalLength(words));
    var room := Pow(|alphabet|, depth - 1);
    WeightAboveChord(words, |alphabet|, depth, longest);
    KraftRooted(words, root, alphabet, longest);
    PowAdd(|alphabet|, longest - depth, depth - 1);
    PowPositive(|alphabet|, longest - depth);
    Regroup(|root|, unit, room);
    Cancel(unit, slack, |root| * room);
  }
}
