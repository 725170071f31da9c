/** Support passwords: `GenerateSupportPassword` and its in-place Fisher-Yates shuffle.
    Random draws are an oracle: `rng(k, max)` is the k-th draw below `max`, or `None`
    when the operating system's generator fails. */
module Password {
  import opened Common

  const UPPER := "ABCDEFGHJKLMNPQRSTUVWXYZ"
  const LOWER := "abcdefghijkmnopqrstuvwxyz"
  const DIGITS := "23456789"
  const SYMBOL := "!@#$%^&*-_"
  const ALL := UPPER + LOWER + DIGITS + SYMBOL
  const CLASSES := [UPPER, LOWER, DIGITS, SYMBOL]

  type Rng = f: (nat, nat) -> Option<nat>
    | forall k: nat, max: nat :: f(k, max).Some? && 0 < max ==> f(k, max).value < max
    witness (k, max) => None

  // ---------------------------------------------------------------------
  // The shuffle as a function of its choices

  /** The choices for positions 0 to n - 1: those for the lower positions, and the index that the top
      position is exchanged with. */
  datatype Choices = NoChoice | Choose(lower: Choices, index: nat)

  function Size(c: Choices): (n: nat) {
    if c.NoChoice? then 0 else Size(c.lower) + 1
  }

  /** No position is exchanged with a higher one. */
  ghost predicate IsChoices(c: Choices) {
    c.Choose? ==> IsChoices(c.lower) && c.index <= Size(c.lower)
  }

  ghost predicate Distinct<T>(s: seq<T>) {
    forall i, j :: 0 <= i < j < |s| ==> s[i] != s[j]
  }

  function Swap<T>(s: seq<T>, i: nat, j: nat): (r: seq<T>)
    requires i < |s| && j < |s|
    ensures |r| == |s|
  {
    s[i := s[j]][j := s[i]]
  }

  /** What is left to shuffle once the top position has received s[j]. */
  function Rest<T>(s: seq<T>, j: nat): (r: seq<T>)
    requires j < |s|
    ensures |r| == |s| - 1
    ensures forall i :: 0 <= i < |r| ==> r[i] == if i == j then s[|s| - 1] else s[i]
  {
    seq(|s| - 1, i requires 0 <= i < |s| - 1 => if i == j then s[|s| - 1] else s[i])
  }

  /** The top position receives its final element first, as in the descending loop. */
  ghost function Shuffle<T>(s: seq<T>, c: Choices): (r: seq<T>)
    requires |s| == Size(c) && IsChoices(c)
    ensures |r| == |s|
    decreases c
  {
    if c.NoChoice? then s else Shuffle(Rest(s, c.index), c.lower) + [s[c.index]]
  }

  lemma {:induction false} RestKeepsElements<T>(s: seq<T>, j: nat)
    requires j < |s|
    ensures multiset(Rest(s, j)) + multiset{s[j]} == multiset(s)
  {
    var n := |s| - 1;
    assert s == s[..n] + [s[n]];
    if j < n {
      assert Rest(s, j) == s[..n][j := s[n]];
    } else {
      assert Rest(s, j) == s[..n];
    }
  }

  /** Every run of the shuffle keeps every element with its multiplicity. */
  lemma {:induction false} ShufflePermutes<T>(s: seq<T>, c: Choices)
    requires |s| == Size(c) && IsChoices(c)
    ensures multiset(Shuffle(s, c)) == multiset(s)
    decreases c
  {
    if c.Choose? {
      ShufflePermutes(Rest(s, c.index), c.lower);
      RestKeepsElements(s, c.index);
    }
  }

  /** The shuffle moves positions, whatever they hold: it is determined by what it does to 0..n-1. */
  lemma {:induction false} ShuffleMovesPositions<T>(s: seq<T>, c: Choices, ids: seq<nat>, base: seq<T>)
    requires |s| == Size(c) == |ids| && IsChoices(c)
    requires forall i :: 0 <= i < |s| ==> ids[i] < |base| && s[i] == base[ids[i]]
    ensures forall i :: 0 <= i < |s| ==>
      0 <= Shuffle(ids, c)[i] < |base| && Shuffle(s, c)[i] == base[Shuffle(ids, c)[i]]
    decreases c
  {
    if c.Choose? {
      ShuffleMovesPositions(Rest(s, c.index), c.lower, Rest(ids, c.index), base);
    }
  }

  lemma {:induction false} IndexIn<T>(s: seq<T>, p: seq<T>, k: nat) returns (j: nat)
    requires multiset(p) == multiset(s) && k < |p|
    ensures j < |s| && s[j] == p[k]
  {
    assert p[k] in multiset(p);
    assert p[k] in s;
    j :| 0 <= j < |s| && s[j] == p[k];
  }

  lemma {:induction false} SameSize<T>(s: seq<T>, p: seq<T>)
    requires multiset(p) == multiset(s)
    ensures |s| == |p|
  {
    assert |multiset(s)| == |s| && |multiset(p)| == |p|;
  }

  lemma {:induction false} WithoutLast<T>(p: seq<T>)
    requires p != []
    ensures multiset(p[..|p| - 1]) + multiset{p[|p| - 1]} == multiset(p)
  {
    assert p == p[..|p| - 1] + [p[|p| - 1]];
  }

  lemma {:induction false} CancelOne<T>(a: multiset<T>, b: multiset<T>, x: T)
    requires a + multiset{x} == b + multiset{x}
    ensures a == b
  {
    assert a == (a + multiset{x}) - multiset{x};
    assert b == (b + multiset{x}) - multiset{x};
  }

  lemma {:induction false} RestPermutation<T>(s: seq<T>, p: seq<T>, j: nat)
    requires p != [] && j < |s| && multiset(s) == multiset(p) && s[j] == p[|p| - 1]
    ensures multiset(p[..|p| - 1]) == multiset(Rest(s, j))
  {
    RestKeepsElements(s, j);
    WithoutLast(p);
    CancelOne(multiset(p[..|p| - 1]), multiset(Rest(s, j)), s[j]);
  }

  /** Every arrangement is reached: its choices are read off from the last position down. */
  lemma {:induction false} ShuffleSurjective<T>(s: seq<T>, p: seq<T>) returns (c: Choices)
    requires multiset(p) == multiset(s)
    ensures Size(c) == |s| && IsChoices(c) && Shuffle(s, c) == p
    decreases |s|
  {
    SameSize(s, p);
    if |s| == 0 {
      c := NoChoice;
    } else {
      var n := |s| - 1;
      var j := IndexIn(s, p, n);
      RestPermutation(s, p, j);
      var lower := ShuffleSurjective(Rest(s, j), p[..n]);
      assert p == p[..n] + [p[n]];
      c := Choose(lower, j);
    }
  }

  lemma {:induction false} RestDistinct<T>(s: seq<T>, j: nat)
    requires j < |s| && Distinct(s)
    ensures Distinct(Rest(s, j))
  {
  }

  lemma {:induction false} AppendInjective<T>(a: seq<T>, x: T, b: seq<T>, y: T)
    requires a + [x] == b + [y] && |a| == |b|
    ensures a == b && x == y
  {
    assert a == (a + [x])[..|a|] && b == (b + [y])[..|b|];
    assert x == (a + [x])[|a|] && y == (b + [y])[|b|];
  }

  /** Distinct elements: different choices give different results. */
  lemma {:induction false} ShuffleInjective<T>(s: seq<T>, c: Choices, d: Choices)
    requires |s| == Size(c) == Size(d) && IsChoices(c) && IsChoices(d) && Distinct(s)
    requires Shuffle(s, c) == Shuffle(s, d)
    ensures c == d
    decreases c
  {
    if c.Choose? {
      AppendInjective(Shuffle(Rest(s, c.index), c.lower), s[c.index],
                      Shuffle(Rest(s, d.index), d.lower), s[d.index]);
      assert c.index == d.index;
      RestDistinct(s, c.index);
      ShuffleInjective(Rest(s, c.index), c.lower, d.lower);
    }
  }

  /** Choice vectors and arrangements of distinct elements correspond one to one: every
      arrangement p is reached, and by exactly one choice vector. */
  lemma {:induction false} ShuffleBijective<T>(s: seq<T>, p: seq<T>)
    requires Distinct(s) && multiset(p) == multiset(s)
    ensures exists c :: Size(c) == |s| && IsChoices(c) && Shuffle(s, c) == p
    ensures forall c, d ::
      (&& Size(c) == Size(d) == |s| && IsChoices(c) && IsChoices(d)
       && Shuffle(s, c) == p && Shuffle(s, d) == p) ==> c == d
  {
    var found := ShuffleSurjective(s, p);
    forall c, d | Size(c) == Size(d) == |s| && IsChoices(c) && IsChoices(d) &&
      Shuffle(s, c) == p && Shuffle(s, d) == p
      ensures c == d
    {
      ShuffleInjective(s, c, d);
    }
  }

  // ---------------------------------------------------------------------
  // The generator

  /** The character set each buffer position is drawn from: one class each, then everything. */
  function Charsets(length: int): (sets: seq<string>)
    ensures |sets| == if length < 4 then 4 else length
    ensures sets[0] == UPPER && sets[1] == LOWER && sets[2] == DIGITS && sets[3] == SYMBOL
    ensures forall i :: 4 <= i < |sets| ==> sets[i] == UPPER + LOWER + DIGITS + SYMBOL
    ensures NonEmpty(sets)
  {
    CLASSES + seq(if length < |CLASSES| then 0 else length - |CLASSES|, i => ALL)
  }

  lemma {:induction false} UpperLetters(c: char)
    ensures c in UPPER <==> 'A' <= c <= 'Z' && c != 'I' && c != 'O'
  {
  }

  lemma {:induction false} LowerLetters(c: char)
    ensures c in LOWER <==> 'a' <= c <= 'z' && c != 'l'
  {
  }

  /** The classes are the letters and digits without 0, O, 1, l and I, and ten symbols. */
  lemma {:induction false} Alphabet(c: char)
    ensures c in UPPER <==> 'A' <= c <= 'Z' && c != 'I' && c != 'O'
    ensures c in LOWER <==> 'a' <= c <= 'z' && c != 'l'
    ensures c in DIGITS <==> '2' <= c <= '9'
    ensures c in SYMBOL <==> c in {'!', '@', '#', '$', '%', '^', '&', '*', '-', '_'}
  {
    UpperLetters(c);
    LowerLetters(c);
  }

  ghost predicate NonEmpty(sets: seq<string>) {
    forall i :: 0 <= i < |sets| ==> 0 < |sets[i]|
  }

  /** The bound of draw k: n characters, then the choices for positions n-1 down to 1. */
  ghost function Bound(sets: seq<string>, k: nat): (max: nat)
    requires NonEmpty(sets) && k < 2 * |sets| - 1
    ensures 0 < max
  {
    if k < |sets| then |sets[k]| else 2 * |sets| - k
  }

  ghost predicate Drawn(rng: Rng, sets: seq<string>, upTo: nat)
    requires NonEmpty(sets) && upTo <= 2 * |sets| - 1
  {
    forall k :: 0 <= k < upTo ==> rng(k, Bound(sets, k)).Some?
  }

  /** The draws for positions i down to 1 of n succeed. */
  ghost predicate Chosen(rng: Rng, n: nat, i: nat)
    requires i < n
  {
    i == 0 || (rng(2 * n - 1 - i, i + 1).Some? && Chosen(rng, n, i - 1))
  }

  lemma {:induction false} DrawnNext(rng: Rng, sets: seq<string>, i: nat)
    requires NonEmpty(sets) && 0 < i < |sets| && Drawn(rng, sets, 2 * |sets| - 1 - i)
    ensures Drawn(rng, sets, 2 * |sets| - i) <==> rng(2 * |sets| - 1 - i, i + 1).Some?
    ensures Drawn(rng, sets, 2 * |sets| - 1) ==> Drawn(rng, sets, 2 * |sets| - i)
  {
    assert Bound(sets, 2 * |sets| - 1 - i) == i + 1;
  }

  lemma {:induction false} DrawnChosen(rng: Rng, sets: seq<string>, i: nat)
    requires NonEmpty(sets) && i < |sets| && Drawn(rng, sets, 2 * |sets| - 1 - i)
    ensures Drawn(rng, sets, 2 * |sets| - 1) <==> Chosen(rng, |sets|, i)
  {
    if i != 0 {
      DrawnNext(rng, sets, i);
      if Drawn(rng, sets, 2 * |sets| - i) {
        DrawnChosen(rng, sets, i - 1);
      }
    }
  }

  /** The k-th draw, 0 standing in for a failed one. */
  ghost function Value(rng: Rng, k: nat, max: nat): (v: nat)
    requires 0 < max
    ensures v < max
  {
    if rng(k, max).Some? then rng(k, max).value else 0
  }

  ghost function Filled(rng: Rng, sets: seq<string>): (s: string)
    requires NonEmpty(sets)
    ensures |s| == |sets|
    ensures forall i :: 0 <= i < |sets| ==> s[i] == sets[i][Value(rng, i, |sets[i]|)]
  {
    seq(|sets|, i requires 0 <= i < |sets| => sets[i][Value(rng, i, |sets[i]|)])
  }

  /** The index drawn for position i, after n characters and n - 1 - i earlier choices. */
  ghost function ChoiceAt(rng: Rng, n: nat, i: nat): (j: nat)
    requires i < n
    ensures j <= i
  {
    if i == 0 then 0 else Value(rng, 2 * n - 1 - i, i + 1)
  }

  /** The indices drawn for positions 0 to i - 1 of n. */
  ghost function DrawnBelow(rng: Rng, n: nat, i: nat): (c: Choices)
    requires i <= n
    ensures Size(c) == i && IsChoices(c)
  {
    if i == 0 then NoChoice else Choose(DrawnBelow(rng, n, i - 1), ChoiceAt(rng, n, i - 1))
  }

  ghost function DrawnChoices(rng: Rng, n: nat): (c: Choices)
    ensures Size(c) == n && IsChoices(c)
  {
    DrawnBelow(rng, n, n)
  }

  /** The index chosen for position i. */
  function ChoiceOf(c: Choices, i: nat): (j: nat)
    requires i < Size(c)
  {
    if i == Size(c.lower) then c.index else ChoiceOf(c.lower, i)
  }

  /** The character for position i is the one at the index drawn for it. */
  ghost predicate IsCharDrawn(rng: Rng, sets: seq<string>, i: nat, ch: char)
    requires i < |sets| && NonEmpty(sets)
  {
    rng(i, |sets[i]|).Some? && ch == sets[i][rng(i, |sets[i]|).value]
  }

  /** Every position above the first is exchanged with the index drawn for it. */
  ghost predicate IsDrawn(rng: Rng, c: Choices) {
    forall i :: 0 < i < Size(c) ==> IsChoiceDrawn(rng, Size(c), i, ChoiceOf(c, i))
  }

  lemma {:induction false} ChoiceBelow(rng: Rng, n: nat, m: nat, i: nat)
    requires i < m <= n
    ensures ChoiceOf(DrawnBelow(rng, n, m), i) == ChoiceAt(rng, n, i)
  {
    if i < m - 1 {
      ChoiceBelow(rng, n, m - 1, i);
    }
  }

  lemma {:induction false} ChosenEach(rng: Rng, n: nat, m: nat, i: nat)
    requires 0 < i <= m < n && Chosen(rng, n, m)
    ensures rng(2 * n - 1 - i, i + 1).Some?
  {
    if i < m {
      ChosenEach(rng, n, m - 1, i);
    }
  }

  ghost predicate IsChoiceDrawn(rng: Rng, n: nat, i: nat, j: nat)
    requires i < n
  {
    rng(2 * n - 1 - i, i + 1).Some? && j == rng(2 * n - 1 - i, i + 1).value
  }

  lemma {:induction false} ChoiceIsDraw(rng: Rng, n: nat, i: nat)
    requires 0 < i < n && Chosen(rng, n, n - 1)
    ensures IsChoiceDrawn(rng, n, i, ChoiceOf(DrawnBelow(rng, n, n), i))
  {
    ChosenEach(rng, n, n - 1, i);
    ChoiceBelow(rng, n, n, i);
  }

  lemma {:induction false} ChoicesAreDraws(rng: Rng, n: nat)
    requires 0 < n && Chosen(rng, n, n - 1)
    ensures IsDrawn(rng, DrawnChoices(rng, n))
  {
    var c := DrawnChoices(rng, n);
    forall i | 0 < i < Size(c) ensures IsChoiceDrawn(rng, Size(c), i, ChoiceOf(c, i)) {
      ChoiceIsDraw(rng, n, i);
    }
  }

  ghost function Find(set': string, ch: char): (i: nat)
    requires ch in set'
    ensures i < |set'| && set'[i] == ch
  {
    var i :| 0 <= i < |set'| && set'[i] == ch;
    i
  }

  lemma {:induction false} ChoiceBound(c: Choices, i: nat)
    requires IsChoices(c) && i < Size(c)
    ensures ChoiceOf(c, i) <= i
  {
    if i < Size(c.lower) {
      ChoiceBound(c.lower, i);
    }
  }

  /** Draw k of the script that chooses the characters of s and then the indices of c. */
  ghost function ScriptAt(sets: seq<string>, s: string, c: Choices, k: nat): (v: nat)
    requires |sets| == |s| == Size(c) && k < 2 * |s| - 1 && forall i :: 0 <= i < |s| ==> s[i] in sets[i]
  {
    if k < |s| then Find(sets[k], s[k]) else ChoiceOf(c, 2 * |s| - 1 - k)
  }

  /** A generator that yields the given values in turn. */
  function Yielding(values: seq<nat>): (rng: Rng) {
    (k: nat, max: nat) => if k < |values| && values[k] < max then Some(values[k]) else None
  }

  ghost function Script(sets: seq<string>, s: string, c: Choices): (values: seq<nat>)
    requires 0 < |sets| == |s| == Size(c) && forall i :: 0 <= i < |s| ==> s[i] in sets[i]
    ensures |values| == 2 * |s| - 1
    ensures forall k :: 0 <= k < |values| ==> values[k] == ScriptAt(sets, s, c, k)
  {
    seq(2 * |s| - 1, k requires 0 <= k < 2 * |s| - 1 => ScriptAt(sets, s, c, k))
  }

  lemma {:induction false} ChoicesMatch(rng: Rng, n: nat, c: Choices)
    requires IsChoices(c) && Size(c) <= n && forall i :: 0 < i < Size(c) ==> ChoiceOf(c, i) == ChoiceAt(rng, n, i)
    ensures DrawnBelow(rng, n, Size(c)) == c
  {
    if c.Choose? {
      assert forall i :: 0 < i < Size(c.lower) ==> ChoiceOf(c.lower, i) == ChoiceOf(c, i);
      ChoicesMatch(rng, n, c.lower);
      assert Size(c.lower) > 0 ==> ChoiceOf(c, Size(c.lower)) == c.index;
    }
  }

  /** Every password can be drawn: for all characters of the right classes and all choices there is a
      generator whose draws all succeed and give them. With `ShuffleSurjective`, every arrangement too. */
  lemma {:induction false} EveryPasswordDrawn(length: int, s: string, c: Choices) returns (rng: Rng)
    requires |Charsets(length)| == |s| == Size(c) && IsChoices(c)
    requires forall i :: 0 <= i < |s| ==> s[i] in Charsets(length)[i]
    ensures Drawn(rng, Charsets(length), 2 * |s| - 1)
    ensures Filled(rng, Charsets(length)) == s && DrawnChoices(rng, |s|) == c
  {
    var sets, n := Charsets(length), |s|;
    var values := Script(sets, s, c);
    rng := Yielding(values);
    forall i | 0 < i < n ensures rng(2 * n - 1 - i, i + 1) == Some(ChoiceOf(c, i)) {
      ChoiceBound(c, i);
      assert values[2 * n - 1 - i] == ScriptAt(sets, s, c, 2 * n - 1 - i);
    }
    forall k | 0 <= k < 2 * n - 1 ensures rng(k, Bound(sets, k)).Some? {
      if k < n {
        assert values[k] == ScriptAt(sets, s, c, k);
      } else {
        var i := 2 * n - 1 - k;
        assert rng(2 * n - 1 - i, i + 1).Some?;
      }
    }
    ScriptFills(sets, s, c);
    ChoicesMatch(rng, n, c);
  }

  lemma {:induction false} ScriptFills(sets: seq<string>, s: string, c: Choices)
    requires 0 < |sets| == |s| == Size(c) && NonEmpty(sets) && forall i :: 0 <= i < |s| ==> s[i] in sets[i]
    ensures Filled(Yielding(Script(sets, s, c)), sets) == s
  {
    var values := Script(sets, s, c);
    forall i | 0 <= i < |s| ensures Filled(Yielding(values), sets)[i] == s[i] {
      assert values[i] == ScriptAt(sets, s, c, i);
    }
  }

  /** One character of every class survives the shuffle, and only the alphabet occurs. */
  ghost predicate Complies(p: string) {
    && (forall i :: 0 <= i < |p| ==> p[i] in ALL)
    && (forall k :: 0 <= k < |CLASSES| ==> exists i :: 0 <= i < |p| && p[i] in CLASSES[k])
  }

  lemma {:induction false} CharsetInAlphabet(length: int, i: nat, ch: char)
    requires i < |Charsets(length)| && ch in Charsets(length)[i]
    ensures ch in ALL
  {
  }

  lemma {:induction false} ShuffledComplies(length: int, s: string, c: Choices)
    requires |Charsets(length)| == |s| == Size(c) && IsChoices(c)
    requires forall i :: 0 <= i < |s| ==> s[i] in Charsets(length)[i]
    ensures Complies(Shuffle(s, c))
  {
    var p := Shuffle(s, c);
    ShufflePermutes(s, c);
    forall i | 0 <= i < |p| ensures p[i] in ALL {
      var j := IndexIn(s, p, i);
      CharsetInAlphabet(length, j, s[j]);
    }
    forall k | 0 <= k < |CLASSES| ensures exists i :: 0 <= i < |p| && p[i] in CLASSES[k] {
      var j := IndexIn(p, s, k);
      assert CLASSES[k] == Charsets(length)[k];
    }
  }

  /** A password of max(length, 4) characters, or nothing when a draw fails. */
  method GenerateSupportPassword(length: int, rng: Rng) returns (password: Option<string>)
    ensures var sets := Charsets(length);
      && (password.Some? <==> Drawn(rng, sets, 2 * |sets| - 1))
      && (password.Some? ==>
            && password.value == Shuffle(Filled(rng, sets), DrawnChoices(rng, |sets|))
            && (forall i :: 0 <= i < |sets| ==> IsCharDrawn(rng, sets, i, Filled(rng, sets)[i]))
            && IsDrawn(rng, DrawnChoices(rng, |sets|))
            && |password.value| == (if length < 4 then 4 else length)
            && Complies(password.value))
  {
    var sets := Charsets(length);
    var buf := new char[|sets|];
    var ok := Fill(buf, sets, rng);
    if !ok {
      return None;
    }
    DrawnChosen(rng, sets, |sets| - 1);
    ok := ShuffleInPlace(buf, rng);
    if !ok {
      return None;
    }
    ShuffledComplies(length, Filled(rng, sets), DrawnChoices(rng, |sets|));
    return Some(buf[..]);
  }

  /** The filling loops; false when a draw fails. */
  method Fill(buf: array<char>, sets: seq<string>, rng: Rng) returns (ok: bool)
    requires 0 < buf.Length == |sets| && NonEmpty(sets)
    modifies buf
    ensures ok <==> Drawn(rng, sets, |sets|)
    ensures ok ==> buf[..] == Filled(rng, sets)
    ensures ok <==> forall i :: 0 <= i < |sets| ==> rng(i, |sets[i]|).Some?
    ensures ok ==> forall i :: 0 <= i < |sets| ==> IsCharDrawn(rng, sets, i, buf[i])
  {
    var i := 0;
    while i < |sets|
      invariant 0 <= i <= |sets| && Drawn(rng, sets, i)
      invariant forall k :: 0 <= k < i ==> rng(k, |sets[k]|).Some?
      invariant forall k :: 0 <= k < i ==> buf[k] == sets[k][Value(rng, k, |sets[k]|)]
    {
      assert Bound(sets, i) == |sets[i]|;
      var draw := rng(i, |sets[i]|);
      if draw.None? {
        return false;
      }
      buf[i] := sets[i][draw.value];
      i := i + 1;
    }
    return true;
  }

  /** The exchanges from the top chosen position down to position 1 turn s into goal. */
  ghost predicate Leads(s: string, c: Choices, goal: string)
    requires 0 < Size(c) <= |s| && IsChoices(c)
    decreases c
  {
    if Size(c) == 1 then s == goal else Leads(Swap(s, Size(c.lower), c.index), c.lower, goal)
  }

  /** The positions without a choice are final, and shuffling the rest leads to goal. */
  ghost predicate Towards(goal: string, s: string, c: Choices) {
    Size(c) <= |s| && IsChoices(c) && goal == Shuffle(s[..Size(c)], c) + s[Size(c)..]
  }

  lemma {:induction false} TowardsStep(goal: string, s: string, c: Choices)
    requires c.Choose? && Towards(goal, s, c)
    ensures Towards(goal, Swap(s, Size(c.lower), c.index), c.lower)
  {
    var n := Size(c.lower);
    var after := Swap(s, n, c.index);
    assert Rest(s[..n + 1], c.index) == after[..n];
    assert after[n..] == [s[c.index]] + s[n + 1..];
  }

  lemma {:induction false} TowardsEnd(goal: string, s: string, c: Choices)
    requires Size(c) == 1 && Towards(goal, s, c)
    ensures s == goal
  {
    assert Shuffle(s[..1], c) == s[..1];
  }

  lemma {:induction false} TowardsLeads(goal: string, s: string, c: Choices)
    requires 0 < Size(c) && Towards(goal, s, c)
    ensures Leads(s, c, goal)
    decreases c
  {
    if Size(c) == 1 {
      TowardsEnd(goal, s, c);
    } else {
      TowardsStep(goal, s, c);
      TowardsLeads(goal, Swap(s, Size(c.lower), c.index), c.lower);
    }
  }

  /** The descending loop performs the shuffle. */
  lemma {:induction false} LoopShuffles(s: string, c: Choices)
    requires 0 < |s| == Size(c) && IsChoices(c)
    ensures Leads(s, c, Shuffle(s, c))
  {
    assert s[..|s|] == s && s[|s|..] == [];
    TowardsLeads(Shuffle(s, c), s, c);
  }

  /** One exchange: position i with the index drawn for it; false, and nothing changed, when the draw
      fails. */
  method Exchange(buf: array<char>, i: nat, rng: Rng) returns (ok: bool)
    requires 0 < i < buf.Length
    modifies buf
    ensures ok <==> rng(2 * buf.Length - 1 - i, i + 1).Some?
    ensures ok ==> buf[..] == Swap(old(buf[..]), i, ChoiceAt(rng, buf.Length, i))
    ensures ok ==> var j := rng(2 * buf.Length - 1 - i, i + 1).value;
      && buf[i] == old(buf[..])[j] && buf[j] == old(buf[i])
      && forall k :: 0 <= k < buf.Length && k != i && k != j ==> buf[k] == old(buf[k])
    ensures !ok ==> buf[..] == old(buf[..])
  {
    var draw := rng(2 * buf.Length - 1 - i, i + 1);
    if draw.None? {
      return false;
    }
    var j := draw.value;
    buf[i], buf[j] := buf[j], buf[i];
    return true;
  }

  /** The descending exchange loop; false when a draw fails. */
  method ShuffleInPlace(buf: array<char>, rng: Rng) returns (ok: bool)
    requires 0 < buf.Length
    modifies buf
    ensures ok <==> Chosen(rng, buf.Length, buf.Length - 1)
    ensures ok ==> buf[..] == Shuffle(old(buf[..]), DrawnChoices(rng, buf.Length))
    ensures ok ==> IsDrawn(rng, DrawnChoices(rng, buf.Length))
  {
    if Chosen(rng, buf.Length, buf.Length - 1) {
      ChoicesAreDraws(rng, buf.Length);
    }
    var n := buf.Length;
    ghost var cur := buf[..];
    ghost var goal := Shuffle(cur, DrawnChoices(rng, n));
    LoopShuffles(cur, DrawnChoices(rng, n));
    var i := n - 1;
    while 0 < i
      invariant 0 <= i < n && (Chosen(rng, n, n - 1) <==> Chosen(rng, n, i))
      invariant buf[..] == cur && Leads(cur, DrawnBelow(rng, n, i + 1), goal)
    {
      ok := Exchange(buf, i, rng);
      if !ok {
        return;
      }
      cur := Swap(cur, i, ChoiceAt(rng, n, i));
      i := i - 1;
    }
    return true;
  }
}
