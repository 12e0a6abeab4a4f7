/**
 Conversion between PascalCase and underscore_case.  The classification and the
 case maps of runes are parameters; what is needed of them is said where it is
 needed, and ASCII is shown to satisfy all of it.
 */
module Casing {
  import opened Options
  import opened Selections

  datatype Runes = Runes(
    isLetter: char -> bool, isDigit: char -> bool, isUpper: char -> bool, toUpper: char -> char, toLower: char -> char)
  {
    predicate Word(r: char) {
      isLetter(r) || isDigit(r)
    }

    /** Underscore is no letter, capitals are letters, and the case maps stay in words. */
    ghost predicate Basic() {
      && !Word('_')
      && (forall r {:trigger isUpper(r)} :: isUpper(r) ==> Word(r))
      && (forall r {:trigger toLower(r)} :: isUpper(r) ==> Word(toLower(r)))
      && (forall r {:trigger toUpper(r)} :: Word(r) ==> Word(toUpper(r)))
      && (forall r {:trigger toUpper(toUpper(r))} :: toUpper(toUpper(r)) == toUpper(r))
    }

    /** A capital whose lower-case form is no capital and leads back to it. */
    predicate Pair(r: char) {
      !isUpper(toLower(r)) && toUpper(toLower(r)) == r && toUpper(r) == r
    }

    /** In addition all capitals are such; the tables of package unicode are not. */
    ghost predicate Paired() {
      Basic() && forall r :: isUpper(r) ==> Pair(r)
    }
  }

  const ASCII := Runes(
    r => 'a' <= r <= 'z' || 'A' <= r <= 'Z',
    r => '0' <= r <= '9',
    r => 'A' <= r <= 'Z',
    r => if 'a' <= r <= 'z' then (r as int - 32) as char else r,
    r => if 'A' <= r <= 'Z' then (r as int + 32) as char else r)

  lemma AsciiIsPaired()
    ensures ASCII.Paired()
  {
    assert forall r :: ASCII.isUpper(r) ==> ASCII.toLower(r) as int == r as int + 32;
    assert forall r :: ASCII.toUpper(ASCII.toUpper(r)) == ASCII.toUpper(r);
  }

  /** A capital without a lower case, and one whose lower case is that of another capital. */
  const DOUBLE_STRUCK_A := '\U{1D538}'
  const DOTTED_I := '\U{0130}'

  /** ASCII with these two, as package unicode classifies and maps them. */
  const EXTENDED := Runes(
    r => ASCII.isLetter(r) || r == DOUBLE_STRUCK_A || r == DOTTED_I,
    ASCII.isDigit,
    r => ASCII.isUpper(r) || r == DOUBLE_STRUCK_A || r == DOTTED_I,
    ASCII.toUpper,
    r => if r == DOTTED_I then 'i' else ASCII.toLower(r))

  lemma ExtendedIsBasic()
    ensures EXTENDED.Basic() && !EXTENDED.Paired()
  {
    assert forall r :: EXTENDED.toUpper(EXTENDED.toUpper(r)) == EXTENDED.toUpper(r);
    assert EXTENDED.isUpper(DOTTED_I) && !EXTENDED.Pair(DOTTED_I);
  }

  // ---- The loops, as functions of the rest of the string and the flags.

  function PascalFrom(u: Runes, s: string, up: bool): string {
    if s == [] then []
    else if !u.Word(s[0]) then PascalFrom(u, s[1..], true)
    else [if up then u.toUpper(s[0]) else s[0]] + PascalFrom(u, s[1..], false)
  }

  /** What is written for one rune. */
  function Written(u: Runes, r: char, previousUnderscore: bool, previousUppercase: bool): string {
    if !u.Word(r) then if previousUnderscore then [] else ['_']
    else if !u.isUpper(r) then [r]
    else if previousUnderscore || previousUppercase then [u.toLower(r)]
    else ['_', u.toLower(r)]
  }

  function UnderscoreFrom(u: Runes, s: string, previousUnderscore: bool, previousUppercase: bool): string {
    if s == [] then []
    else
      Written(u, s[0], previousUnderscore, previousUppercase) +
      UnderscoreFrom(u, s[1..], !u.Word(s[0]), u.Word(s[0]) && u.isUpper(s[0]))
  }

  function TrimLeft(s: string): string {
    if s != [] && s[0] == '_' then TrimLeft(s[1..]) else s
  }

  function TrimRight(s: string): string {
    if s != [] && s[|s| - 1] == '_' then TrimRight(s[..|s| - 1]) else s
  }

  function Pascal(u: Runes, s: string): string {
    PascalFrom(u, s, true)
  }

  function Underscore(u: Runes, s: string): string {
    TrimRight(TrimLeft(UnderscoreFrom(u, s, false, false)))
  }

  method ToPascalCase(u: Runes, value: string) returns (b: string)
    ensures b == Pascal(u, value)
  {
    b := [];
    var toUpper := false;
    for i := 0 to |value|
      invariant Pascal(u, value) == b + PascalFrom(u, value[i..], toUpper || i == 0)
    {
      var rune := value[i];
      assert value[i..][1..] == value[i + 1..];
      if i == 0 {
        toUpper := true;
      }
      if !u.Word(rune) {
        toUpper := true;
        continue;
      }
      if toUpper {
        rune := u.toUpper(rune);
        toUpper := false;
      }
      b := b + [rune];
    }
  }

  lemma Unroll(u: Runes, value: string, i: nat, b: string, pu: bool, pU: bool)
    requires i < |value|
    ensures b + UnderscoreFrom(u, value[i..], pu, pU) ==
      (b + Written(u, value[i], pu, pU)) +
      UnderscoreFrom(u, value[i + 1..], !u.Word(value[i]), u.Word(value[i]) && u.isUpper(value[i]))
  {
    assert value[i..][1..] == value[i + 1..];
  }

  method ToUnderscoreCase(u: Runes, value: string) returns (r: string)
    ensures r == Underscore(u, value)
  {
    var b := [];
    var previousUnderscore, previousUppercase := false, false;
    ghost var whole := UnderscoreFrom(u, value, false, false);
    assert value[0..] == value;
    for i := 0 to |value|
      invariant whole == b + UnderscoreFrom(u, value[i..], previousUnderscore, previousUppercase)
    {
      var rune := value[i];
      Unroll(u, value, i, b, previousUnderscore, previousUppercase);
      ghost var next := b + Written(u, rune, previousUnderscore, previousUppercase);
      if !u.Word(rune) {
        if !previousUnderscore {
          b := b + ['_'];
          previousUnderscore := true;
        }
        previousUppercase := false;
      } else {
        if u.isUpper(rune) {
          if !previousUnderscore && !previousUppercase {
            b := b + ['_'];
          }
          b := b + [u.toLower(rune)];
          previousUppercase := true;
        } else {
          b := b + [rune];
          previousUppercase := false;
        }
        previousUnderscore := false;
      }
      assert b == next;
    }
    assert whole == b;
    r := TrimRight(TrimLeft(b));
  }

  // ---- What both conversions write, by the positions of the letters and digits.

  function Words(u: Runes): char -> bool {
    (r: char) => u.Word(r)
  }

  /** The positions of the letters and digits from `k` on. */
  function WordsFrom(u: Runes, s: string, k: nat): (at: seq<nat>)
    requires k <= |s|
    ensures forall i :: 0 <= i < |at| ==> k <= at[i] < |s|
    decreases |s| - k
  {
    if k == |s| then [] else (if u.Word(s[k]) then [k] else []) + WordsFrom(u, s, k + 1)
  }

  lemma {:induction false} WordsFromPositions(u: Runes, s: string, k: nat)
    requires k <= |s|
    ensures Positions(s, Words(u), k, |s|, WordsFrom(u, s, k))
    decreases |s| - k
  {
    if k < |s| {
      WordsFromPositions(u, s, k + 1);
      var rest, keep := WordsFrom(u, s, k + 1), Words(u);
      Prepend(s, keep, k, |s|, rest);
      assert WordsFrom(u, s, k) == if keep(s[k]) then [k] + rest else rest;
    }
  }

  /** The rune in upper case if it is the first of the string or follows a rune that is no letter or digit. */
  function Capital(u: Runes, s: string, i: nat): char
    requires i < |s|
  {
    if i == 0 || !u.Word(s[i - 1]) then u.toUpper(s[i]) else s[i]
  }

  lemma {:induction false} PascalFromPosition(u: Runes, s: string, k: nat)
    requires k <= |s|
    ensures var o, at := PascalFrom(u, s[k..], k == 0 || !u.Word(s[k - 1])), WordsFrom(u, s, k);
      |o| == |at| && forall i :: 0 <= i < |at| ==> o[i] == Capital(u, s, at[i])
    decreases |s| - k
  {
    if k < |s| {
      PascalFromPosition(u, s, k + 1);
      assert s[k..][1..] == s[k + 1..] && s[k..][0] == s[k];
      if u.Word(s[k]) {
        var o := PascalFrom(u, s[k + 1..], false);
        assert PascalFrom(u, s[k..], k == 0 || !u.Word(s[k - 1])) == [Capital(u, s, k)] + o;
      }
    }
  }

  /**
   The Pascal form of any string is its letters and digits in order, in upper
   case the first of the string and those after another rune, and no other.
   */
  lemma PascalByPosition(u: Runes, s: string) returns (at: seq<nat>)
    ensures Positions(s, Words(u), 0, |s|, at) && |Pascal(u, s)| == |at|
    ensures forall i :: 0 <= i < |at| ==>
      Pascal(u, s)[i] == if at[i] == 0 || !u.Word(s[at[i] - 1]) then u.toUpper(s[at[i]]) else s[at[i]]
  {
    at := WordsFrom(u, s, 0);
    WordsFromPositions(u, s, 0);
    PascalFromPosition(u, s, 0);
    assert s[0..] == s;
  }

  function Lowered(u: Runes, r: char): char {
    if u.isUpper(r) then u.toLower(r) else r
  }

  /** Something else stands between the two positions, or a capital begins at the second. */
  predicate Separated(u: Runes, s: string, a: nat, b: nat)
    requires a < |s| && b < |s|
  {
    b != a + 1 || (u.isUpper(s[b]) && !u.isUpper(s[a]))
  }

  /** The letters and digits at these positions in lower case, an underscore between those that are separated. */
  function Joined(u: Runes, s: string, at: seq<nat>): string
    requires forall i :: 0 <= i < |at| ==> at[i] < |s|
  {
    if at == [] then []
    else if |at| == 1 then [Lowered(u, s[at[0]])]
    else
      [Lowered(u, s[at[0]])] + (if Separated(u, s, at[0], at[1]) then ['_'] else []) + Joined(u, s, at[1..])
  }

  /** Whether an underscore is written before the first letter or digit from `k` on, and after the last. */
  predicate Leads(u: Runes, s: string, k: nat, first: nat)
    requires k <= first < |s|
  {
    if first == k then u.isUpper(s[k]) && (k == 0 || (u.Word(s[k - 1]) && !u.isUpper(s[k - 1])))
    else k == 0 || u.Word(s[k - 1])
  }

  function Border(b: bool): string {
    if b then ['_'] else []
  }

  /** Before trimming there may be an underscore at both ends. */
  ghost predicate Bordered(u: Runes, s: string, k: nat, o: string)
    requires k <= |s|
  {
    var at := WordsFrom(u, s, k);
    if at == [] then o == Border(k < |s| && (k == 0 || u.Word(s[k - 1])))
    else o == Border(Leads(u, s, k, at[0])) + Joined(u, s, at) + Border(at[|at| - 1] != |s| - 1)
  }

  function Tail(u: Runes, s: string, k: nat): string
    requires k <= |s|
  {
    UnderscoreFrom(u, s[k..], k > 0 && !u.Word(s[k - 1]), k > 0 && u.isUpper(s[k - 1]))
  }

  lemma TailStep(u: Runes, s: string, k: nat)
    requires k < |s|
    ensures Tail(u, s, k) ==
      Written(u, s[k], k > 0 && !u.Word(s[k - 1]), k > 0 && u.isUpper(s[k - 1])) +
      UnderscoreFrom(u, s[k + 1..], !u.Word(s[k]), u.Word(s[k]) && u.isUpper(s[k]))
  {
    assert s[k..][1..] == s[k + 1..] && s[k..][0] == s[k];
  }

  lemma WordIsWritten(u: Runes, s: string, k: nat)
    requires k < |s| && u.Word(s[k])
    ensures Tail(u, s, k) == Border(Leads(u, s, k, k)) + [Lowered(u, s[k])] + Tail(u, s, k + 1)
  {
    TailStep(u, s, k);
  }

  lemma OtherIsWritten(u: Runes, s: string, k: nat)
    requires k < |s| && !u.Word(s[k]) && !u.isUpper(s[k])
    ensures Tail(u, s, k) == Border(k == 0 || u.Word(s[k - 1])) + Tail(u, s, k + 1)
  {
    TailStep(u, s, k);
  }

  lemma JoinedStep(u: Runes, s: string, k: nat, rest: seq<nat>)
    requires k < |s| && rest != [] && forall i :: 0 <= i < |rest| ==> rest[i] < |s|
    ensures Joined(u, s, [k] + rest) ==
      [Lowered(u, s[k])] + Border(Separated(u, s, k, rest[0])) + Joined(u, s, rest)
  {
    assert ([k] + rest)[1..] == rest;
  }

  lemma Regroup(a: string, c: string, b: string, j: string, e: string)
    ensures a + c + (b + j + e) == a + (c + b + j) + e
  {
  }

  lemma BorderedAtLastWord(u: Runes, s: string, k: nat)
    requires k < |s| && u.Word(s[k]) && Bordered(u, s, k + 1, Tail(u, s, k + 1)) && WordsFrom(u, s, k + 1) == []
    ensures Bordered(u, s, k, Tail(u, s, k))
  {
    WordIsWritten(u, s, k);
    assert WordsFrom(u, s, k) == [k] && Joined(u, s, [k]) == [Lowered(u, s[k])];
  }

  lemma BorderedAtWord(u: Runes, s: string, k: nat)
    requires k < |s| && u.Word(s[k]) && Bordered(u, s, k + 1, Tail(u, s, k + 1)) && WordsFrom(u, s, k + 1) != []
    ensures Bordered(u, s, k, Tail(u, s, k))
  {
    var rest := WordsFrom(u, s, k + 1);
    var at := [k] + rest;
    WordIsWritten(u, s, k);
    JoinedStep(u, s, k, rest);
    assert WordsFrom(u, s, k) == at && at[|at| - 1] == rest[|rest| - 1];
    var lead, c, j := Border(Leads(u, s, k, k)), [Lowered(u, s[k])], Joined(u, s, rest);
    var between, end := Border(Separated(u, s, k, rest[0])), Border(at[|at| - 1] != |s| - 1);
    Regroup(lead, c, between, j, end);
    assert Tail(u, s, k + 1) == between + j + end;
    assert Tail(u, s, k) == lead + Joined(u, s, at) + end;
  }

  lemma BorderedAtOther(u: Runes, s: string, k: nat)
    requires k < |s| && !u.Word(s[k]) && !u.isUpper(s[k]) && Bordered(u, s, k + 1, Tail(u, s, k + 1))
    ensures Bordered(u, s, k, Tail(u, s, k))
  {
    var at := WordsFrom(u, s, k + 1);
    OtherIsWritten(u, s, k);
    assert WordsFrom(u, s, k) == at;
    if at != [] {
      var lead, j, end := Border(k == 0 || u.Word(s[k - 1])), Joined(u, s, at), Border(at[|at| - 1] != |s| - 1);
      assert Border(Leads(u, s, k + 1, at[0])) == [];
      assert Border(Leads(u, s, k, at[0])) == lead;
      Regroup(lead, [], [], j, end);
      assert lead + [] == lead && [] + [] + j == j;
    }
  }

  lemma {:induction false} UnderscoreFromPosition(u: Runes, s: string, k: nat)
    requires u.Basic() && k <= |s|
    ensures Bordered(u, s, k, Tail(u, s, k))
    decreases |s| - k
  {
    if k < |s| {
      UnderscoreFromPosition(u, s, k + 1);
      if u.Word(s[k]) && WordsFrom(u, s, k + 1) == [] {
        BorderedAtLastWord(u, s, k);
      } else if u.Word(s[k]) {
        BorderedAtWord(u, s, k);
      } else {
        BorderedAtOther(u, s, k);
      }
    }
  }

  lemma {:induction false} JoinedEnds(u: Runes, s: string, at: seq<nat>)
    requires u.Basic() && at != [] && forall i :: 0 <= i < |at| ==> at[i] < |s| && u.Word(s[at[i]])
    ensures var o := Joined(u, s, at); o != [] && o[0] != '_' && o[|o| - 1] != '_'
  {
    if |at| > 1 {
      JoinedEnds(u, s, at[1..]);
    }
  }

  /**
   The underscore form of any string is its letters and digits in lower case,
   in order, with an underscore exactly between neighbours that are separated.
   */
  lemma UnderscoreIsJoined(u: Runes, s: string) returns (at: seq<nat>)
    requires u.Basic()
    ensures Positions(s, Words(u), 0, |s|, at) && Underscore(u, s) == Joined(u, s, at)
  {
    at := WordsFrom(u, s, 0);
    WordsFromPositions(u, s, 0);
    UnderscoreFromPosition(u, s, 0);
    assert s[0..] == s;
    if at != [] {
      JoinedEnds(u, s, at);
    }
    TrimmedIsJoined(u, s, UnderscoreFrom(u, s, false, false));
  }

  lemma TrimmedIsJoined(u: Runes, s: string, o: string)
    requires Bordered(u, s, 0, o)
    requires var j := Joined(u, s, WordsFrom(u, s, 0)); j != [] ==> j[0] != '_' && j[|j| - 1] != '_'
    ensures TrimRight(TrimLeft(o)) == Joined(u, s, WordsFrom(u, s, 0))
  {
    var at := WordsFrom(u, s, 0);
    if at == [] {
      TrimBordersOfNothing(o);
    } else {
      var j := Joined(u, s, at);
      TrimBorders(j, Leads(u, s, 0, at[0]), at[|at| - 1] != |s| - 1);
    }
  }

  lemma TrimBordersOfNothing(o: string)
    requires o == [] || o == ['_']
    ensures TrimRight(TrimLeft(o)) == []
  {
    if o == ['_'] {
      assert o[1..] == [];
    }
  }

  lemma TrimLeftBorder(t: string, lead: bool)
    requires t != [] && t[0] != '_'
    ensures TrimLeft(Border(lead) + t) == t
  {
    var o := Border(lead) + t;
    if lead {
      assert o[1..] == t && TrimLeft(t) == t;
    } else {
      assert o == t;
    }
  }

  lemma TrimRightBorder(t: string, end: bool)
    requires t != [] && t[|t| - 1] != '_'
    ensures TrimRight(t + Border(end)) == t
  {
    var o := t + Border(end);
    if end {
      assert o[..|o| - 1] == t && TrimRight(t) == t;
    } else {
      assert o == t;
    }
  }

  lemma TrimBorders(j: string, lead: bool, end: bool)
    requires j != [] && j[0] != '_' && j[|j| - 1] != '_'
    ensures TrimRight(TrimLeft(Border(lead) + j + Border(end))) == j
  {
    assert Border(lead) + j + Border(end) == Border(lead) + (j + Border(end));
    TrimLeftBorder(j + Border(end), lead);
    TrimRightBorder(j, end);
  }

  // ---- Normal forms.

  predicate NoDoubles(s: string) {
    forall i :: 0 <= i < |s| - 1 ==> s[i] != '_' || s[i + 1] != '_'
  }

  predicate NoEdges(s: string) {
    s != [] ==> s[0] != '_' && s[|s| - 1] != '_'
  }

  predicate OnlyWords(u: Runes, s: string) {
    forall r :: r in s ==> u.Word(r)
  }

  predicate WordsAndUnderscores(u: Runes, s: string) {
    forall r :: r in s ==> r == '_' || u.Word(r)
  }

  predicate NoCapitals(u: Runes, s: string) {
    forall r :: r in s ==> !u.isUpper(r)
  }

  /** Every capital of `s` has a lower-case form. */
  predicate CanLower(u: Runes, s: string) {
    forall r :: r in s && u.isUpper(r) ==> !u.isUpper(u.toLower(r))
  }

  predicate Snake(u: Runes, s: string) {
    NoEdges(s) && NoDoubles(s) && WordsAndUnderscores(u, s) && NoCapitals(u, s)
  }

  lemma {:induction false} UnderscoreShape(u: Runes, s: string, pu: bool, pU: bool)
    requires u.Basic()
    ensures var o := UnderscoreFrom(u, s, pu, pU);
      NoDoubles(o) && WordsAndUnderscores(u, o) && (pu && o != [] ==> o[0] != '_')
  {
    if s != [] {
      var word, upper := u.Word(s[0]), u.Word(s[0]) && u.isUpper(s[0]);
      UnderscoreShape(u, s[1..], !word, upper);
    }
  }

  lemma {:induction false} CapitalsRemain(u: Runes, s: string, pu: bool, pU: bool)
    requires u.Basic()
    ensures NoCapitals(u, UnderscoreFrom(u, s, pu, pU)) <==> CanLower(u, s)
  {
    if s != [] {
      var word, upper := u.Word(s[0]), u.Word(s[0]) && u.isUpper(s[0]);
      var pu', pU' := !word, upper;
      CapitalsRemain(u, s[1..], pu', pU');
      var rest := UnderscoreFrom(u, s[1..], pu', pU');
      var o := UnderscoreFrom(u, s, pu, pU);
      assert s == [s[0]] + s[1..];
      assert CanLower(u, s) <==> CanLower(u, [s[0]]) && CanLower(u, s[1..]);
      var head := o[..|o| - |rest|];
      assert o == head + rest;
      assert NoCapitals(u, o) <==> NoCapitals(u, head) && NoCapitals(u, rest);
      assert NoCapitals(u, head) <==> CanLower(u, [s[0]]);
    }
  }

  lemma {:induction false} TrimLeftFacts(s: string) returns (k: nat)
    ensures k <= |s| && TrimLeft(s) == s[k..] && forall i :: 0 <= i < k ==> s[i] == '_'
    ensures k < |s| ==> s[k] != '_'
  {
    k := 0;
    if s != [] && s[0] == '_' {
      k := TrimLeftFacts(s[1..]);
      assert s[1..][k..] == s[k + 1..];
      assert forall i :: 0 < i < k + 1 ==> s[i] == s[1..][i - 1];
      k := k + 1;
    }
  }

  lemma {:induction false} TrimRightFacts(s: string) returns (k: nat)
    ensures k <= |s| && TrimRight(s) == s[..k] && forall i :: k <= i < |s| ==> s[i] == '_'
    ensures k > 0 ==> s[k - 1] != '_'
  {
    k := |s|;
    if s != [] && s[|s| - 1] == '_' {
      var n := |s| - 1;
      k := TrimRightFacts(s[..n]);
      assert s[..n][..k] == s[..k];
      assert forall i :: k <= i < n ==> s[i] == s[..n][i];
    }
  }

  /** Trimming takes a middle part; what is cut off are underscores. */
  lemma TrimFacts(s: string) returns (a: nat, b: nat)
    ensures a <= b <= |s| && TrimRight(TrimLeft(s)) == s[a..b]
    ensures forall i :: 0 <= i < a || b <= i < |s| ==> s[i] == '_'
    ensures NoEdges(s[a..b])
  {
    a := TrimLeftFacts(s);
    var t := s[a..];
    var k := TrimRightFacts(t);
    b := a + k;
    assert t[..k] == s[a..b];
    forall i | b <= i < |s|
      ensures s[i] == '_'
    {
      assert s[i] == t[i - a];
    }
    if k > 0 {
      assert s[b - 1] == t[k - 1] && s[a..b][0] == s[a];
    }
  }

  /** No leading, trailing or doubled underscore for any input; no capital exactly if every capital has a lower case. */
  lemma UnderscoreNormalForm(u: Runes, s: string)
    requires u.Basic()
    ensures var o := Underscore(u, s);
      && NoEdges(o) && NoDoubles(o) && WordsAndUnderscores(u, o)
      && (NoCapitals(u, o) <==> CanLower(u, s))
  {
    var o := UnderscoreFrom(u, s, false, false);
    UnderscoreShape(u, s, false, false);
    CapitalsRemain(u, s, false, false);
    var a, b := TrimFacts(o);
    var t := o[a..b];
    forall r | r in o && r != '_'
      ensures r in t
    {
      var i :| 0 <= i < |o| && o[i] == r;
      assert t[i - a] == r;
    }
    assert !u.isUpper('_');
    assert forall r :: r in t ==> r in o;
  }

  // ---- A second conversion to underscores.

  /** A capital whose lower-case form is a capital again. */
  predicate Stuck(u: Runes, r: char) {
    u.isUpper(r) && u.isUpper(u.toLower(r))
  }

  /** The rune is written alike by a second conversion, given the rune before it. */
  predicate Settled(u: Runes, r: char, before: Option<char>) {
    Stuck(u, r) ==>
      && u.toLower(u.toLower(r)) == u.toLower(r)
      && (before.Some? && u.isUpper(before.value) ==> Stuck(u, before.value))
  }

  function Before(s: string, i: nat): Option<char>
    requires i <= |s|
  {
    if i == 0 then None else Some(s[i - 1])
  }

  predicate AllSettled(u: Runes, s: string, before: Option<char>) {
    forall i :: 0 <= i < |s| ==> Settled(u, s[i], if i == 0 then before else Before(s, i))
  }

  lemma SettledFrom(u: Runes, s: string, before: Option<char>)
    requires s != []
    ensures AllSettled(u, s, before) <==> Settled(u, s[0], before) && AllSettled(u, s[1..], Some(s[0]))
  {
    if Settled(u, s[0], before) && AllSettled(u, s[1..], Some(s[0])) {
      forall i | 0 < i < |s|
        ensures Settled(u, s[i], Before(s, i))
      {
        assert s[i] == s[1..][i - 1];
        assert i > 1 ==> s[i - 1] == s[1..][i - 2];
      }
    }
    if AllSettled(u, s, before) {
      forall i | 0 <= i < |s| - 1
        ensures Settled(u, s[1..][i], if i == 0 then Some(s[0]) else Before(s[1..], i))
      {
        assert s[1..][i] == s[i + 1];
        assert i > 0 ==> s[1..][i - 1] == s[i];
      }
    }
  }

  /** What the two passes remember of the rune before. */
  predicate Flags(u: Runes, before: Option<char>, pu: bool, pU: bool, qU: bool) {
    match before
    case None => !pu && !pU && !qU
    case Some(r) => pu == !u.Word(r) && pU == u.isUpper(r) && qU == Stuck(u, r)
  }

  /** The conversion changes nothing: each capital is its own lower case and follows an underscore or a capital. */
  predicate Calm(u: Runes, y: string, ok: bool) {
    forall i :: 0 <= i < |y| ==> CalmAt(u, y, ok, i)
  }

  /** `ok` says whether an underscore, a capital or nothing came before the string. */
  predicate CalmAt(u: Runes, y: string, ok: bool, i: nat)
    requires i < |y|
  {
    u.isUpper(y[i]) ==> u.toLower(y[i]) == y[i] && if i == 0 then ok else Follows(u, y[i - 1])
  }

  predicate Follows(u: Runes, r: char) {
    r == '_' || u.isUpper(r)
  }

  lemma CalmFrom(u: Runes, y: string, ok: bool)
    requires y != []
    ensures Calm(u, y, ok) <==> CalmAt(u, y, ok, 0) && Calm(u, y[1..], Follows(u, y[0]))
  {
    var t := y[1..];
    assert forall i: nat :: i < |t| ==> (CalmAt(u, t, Follows(u, y[0]), i) <==> CalmAt(u, y, ok, i + 1));
    if CalmAt(u, y, ok, 0) && Calm(u, t, Follows(u, y[0])) {
      forall i | 0 < i < |y|
        ensures CalmAt(u, y, ok, i)
      {
        assert CalmAt(u, t, Follows(u, y[0]), i - 1);
      }
    }
  }

  lemma {:induction false} FixedIff(u: Runes, y: string, pu: bool, pU: bool)
    requires u.Basic() && NoDoubles(y) && WordsAndUnderscores(u, y) && (pu && y != [] ==> y[0] != '_')
    ensures UnderscoreFrom(u, y, pu, pU) == y <==> Calm(u, y, pu || pU)
  {
    if y != [] {
      assert forall r :: r in y[1..] ==> r in y;
      CalmFrom(u, y, pu || pU);
      FixedIff(u, y[1..], y[0] == '_', u.isUpper(y[0]));
      var rest := UnderscoreFrom(u, y[1..], y[0] == '_', u.isUpper(y[0]));
      var o := UnderscoreFrom(u, y, pu, pU);
      assert o == Written(u, y[0], pu, pU) + rest && y == [y[0]] + y[1..];
      if u.isUpper(y[0]) && !pu && !pU {
        assert o[0] == '_';
      } else {
        assert o == [o[0]] + rest && o[1..] == rest;
      }
    }
  }

  /** The first conversion leaves a calm string exactly when all runes of its input are settled. */
  lemma {:induction false} CalmIffSettled(u: Runes, s: string, before: Option<char>, pu: bool, pU: bool, qU: bool)
    requires u.Basic() && Flags(u, before, pu, pU, qU)
    ensures Calm(u, UnderscoreFrom(u, s, pu, pU), before.None? || pu || qU) <==> AllSettled(u, s, before)
  {
    if s != [] {
      var r := s[0];
      SettledFrom(u, s, before);
      CalmIffSettled(u, s[1..], Some(r), !u.Word(r), u.isUpper(r), Stuck(u, r));
      var rest := UnderscoreFrom(u, s[1..], !u.Word(r), u.isUpper(r));
      var o := UnderscoreFrom(u, s, pu, pU);
      assert o == Written(u, r, pu, pU) + rest;
      var ok := before.None? || pu || qU;
      if !u.Word(r) {
        if !pu {
          CalmFrom(u, o, ok);
          assert o[1..] == rest && CalmAt(u, o, ok, 0) && Follows(u, o[0]);
        } else {
          assert o == rest;
        }
      } else if !u.isUpper(r) || pu || pU {
        CalmFrom(u, o, ok);
        assert o[1..] == rest && o[0] == if u.isUpper(r) then u.toLower(r) else r;
      } else {
        CalmFrom(u, o, ok);
        CalmFrom(u, o[1..], true);
        assert o[1..][1..] == rest && o[0] == '_' && o[1] == u.toLower(r);
        assert CalmAt(u, o, ok, 0) && Follows(u, o[0]);
      }
    }
  }

  lemma CalmWhenTrimmed(u: Runes, o: string, a: nat, b: nat)
    requires !u.isUpper('_') && a <= b <= |o|
    requires forall i :: 0 <= i < a || b <= i < |o| ==> o[i] == '_'
    ensures Calm(u, o[a..b], true) <==> Calm(u, o, true)
  {
    var y := o[a..b];
    assert forall i: nat :: i < |y| ==> (CalmAt(u, y, true, i) <==> CalmAt(u, o, true, i + a));
    if Calm(u, y, true) {
      forall i | a <= i < b
        ensures CalmAt(u, o, true, i)
      {
        assert CalmAt(u, y, true, i - a);
      }
    }
  }

  /**
   The underscore form of a string that begins and ends in a letter or digit:
   only an underscore before a first capital is trimmed.
   */
  lemma UnderscoreOfPlain(u: Runes, p: string)
    requires u.Basic() && WordsAndUnderscores(u, p) && NoEdges(p) && p != []
    ensures Underscore(u, p) ==
      [if u.isUpper(p[0]) then u.toLower(p[0]) else p[0]] + UnderscoreFrom(u, p[1..], false, u.isUpper(p[0]))
  {
    assert p[0] in p;
    var upper := u.isUpper(p[0]);
    var r := if upper then u.toLower(p[0]) else p[0];
    var rest := UnderscoreFrom(u, p[1..], false, upper);
    var all := UnderscoreFrom(u, p, false, false);
    EndsInAWord(u, p, false, false);
    assert all == (if upper then ['_', r] else [r]) + rest;
    if upper {
      assert all[1..] == [r] + rest;
      assert TrimLeft(all) == [r] + rest by {
        assert TrimLeft(all[1..]) == all[1..];
      }
      assert ([r] + rest)[|rest|] == all[|all| - 1];
    }
    assert TrimLeft(all) == [r] + rest;
  }

  lemma {:induction false} EndsInAWord(u: Runes, p: string, pu: bool, pU: bool)
    requires u.Basic() && p != [] && u.Word(p[|p| - 1])
    ensures var o := UnderscoreFrom(u, p, pu, pU); o != [] && o[|o| - 1] != '_'
  {
    if |p| > 1 {
      EndsInAWord(u, p[1..], !u.Word(p[0]), u.Word(p[0]) && u.isUpper(p[0]));
    } else {
      assert UnderscoreFrom(u, p[1..], false, u.isUpper(p[0])) == [];
    }
  }

  lemma PlainFixedIff(u: Runes, y: string)
    requires u.Basic() && WordsAndUnderscores(u, y) && NoEdges(y) && NoDoubles(y)
    ensures Underscore(u, y) == y <==> Calm(u, y, true)
  {
    if y != [] {
      assert y[0] in y && y[|y| - 1] in y;
      assert forall r :: r in y[1..] ==> r in y;
      UnderscoreOfPlain(u, y);
      CalmFrom(u, y, true);
      FixedIff(u, y[1..], false, u.isUpper(y[0]));
      var rest := UnderscoreFrom(u, y[1..], false, u.isUpper(y[0]));
      assert y == [y[0]] + y[1..] && Underscore(u, y)[1..] == rest;
    }
  }

  /**
   A second conversion changes nothing exactly when every capital that stays a
   capital stays the same from then on and does not follow one that does not.
   */
  lemma UnderscoreIsIdempotentIff(u: Runes, s: string)
    requires u.Basic()
    ensures Underscore(u, Underscore(u, s)) == Underscore(u, s) <==> AllSettled(u, s, None)
  {
    var o := UnderscoreFrom(u, s, false, false);
    CalmIffSettled(u, s, None, false, false, false);
    var a, b := TrimFacts(o);
    CalmWhenTrimmed(u, o, a, b);
    UnderscoreNormalForm(u, s);
    PlainFixedIff(u, Underscore(u, s));
  }

  /** In particular if every capital has a lower case, as in ASCII. */
  lemma UnderscoreIsIdempotent(u: Runes, s: string)
    requires u.Basic() && CanLower(u, s)
    ensures Underscore(u, Underscore(u, s)) == Underscore(u, s)
  {
    UnderscoreIsIdempotentIff(u, s);
    assert forall i :: 0 <= i < |s| ==> s[i] in s;
  }

  /** It does change "B" followed by the double-struck A, which on its own is stable. */
  lemma SecondConversionDiffers()
    ensures var s := ['B', DOUBLE_STRUCK_A];
      Underscore(EXTENDED, Underscore(EXTENDED, s)) != Underscore(EXTENDED, s)
    ensures var s := [DOUBLE_STRUCK_A]; Underscore(EXTENDED, Underscore(EXTENDED, s)) == Underscore(EXTENDED, s)
  {
    ExtendedIsBasic();
    var s := ['B', DOUBLE_STRUCK_A];
    UnderscoreIsIdempotentIff(EXTENDED, s);
    assert Before(s, 1) == Some('B') && !Settled(EXTENDED, s[1], Before(s, 1));
    UnderscoreIsIdempotentIff(EXTENDED, [DOUBLE_STRUCK_A]);
  }

  lemma {:induction false} PascalShape(u: Runes, s: string, up: bool)
    requires u.Basic()
    ensures var o := PascalFrom(u, s, up); OnlyWords(u, o) && (up && o != [] ==> u.toUpper(o[0]) == o[0])
  {
    if s != [] {
      PascalShape(u, s[1..], !u.Word(s[0]));
      if !u.Word(s[0]) {
        PascalShape(u, s[1..], true);
      }
    }
  }

  lemma {:induction false} WordsAreKept(u: Runes, s: string)
    requires OnlyWords(u, s)
    ensures PascalFrom(u, s, false) == s
  {
    if s != [] {
      assert forall r :: r in s[1..] ==> r in s;
      WordsAreKept(u, s[1..]);
    }
  }

  lemma PascalIsIdempotent(u: Runes, s: string)
    requires u.Basic()
    ensures Pascal(u, Pascal(u, s)) == Pascal(u, s)
  {
    var o := Pascal(u, s);
    PascalShape(u, s, true);
    if o != [] {
      assert forall r :: r in o[1..] ==> r in o;
      WordsAreKept(u, o[1..]);
    }
  }

  // ---- Pascal case, to underscores and back.

  lemma {:induction false} LeadingUnderscoresDoNotMatter(u: Runes, s: string)
    requires !u.Word('_')
    ensures PascalFrom(u, TrimLeft(s), true) == PascalFrom(u, s, true)
  {
    if s != [] && s[0] == '_' {
      LeadingUnderscoresDoNotMatter(u, s[1..]);
    }
  }

  lemma {:induction false} LastUnderscoreDoesNotMatter(u: Runes, s: string, up: bool)
    requires !u.Word('_') && s != [] && s[|s| - 1] == '_'
    ensures PascalFrom(u, s[..|s| - 1], up) == PascalFrom(u, s, up)
  {
    if |s| > 1 {
      assert s[..|s| - 1][1..] == s[1..][..|s| - 2];
      LastUnderscoreDoesNotMatter(u, s[1..], !u.Word(s[0]));
      if !u.Word(s[0]) {
        LastUnderscoreDoesNotMatter(u, s[1..], true);
      }
    }
  }

  lemma {:induction false} TrailingUnderscoresDoNotMatter(u: Runes, s: string, up: bool)
    requires !u.Word('_')
    ensures PascalFrom(u, TrimRight(s), up) == PascalFrom(u, s, up)
  {
    if s != [] && s[|s| - 1] == '_' {
      LastUnderscoreDoesNotMatter(u, s, up);
      TrailingUnderscoresDoNotMatter(u, s[..|s| - 1], up);
    }
  }

  /** What the two conversions make of one letter or digit. */
  function Returned(u: Runes, r: char, afterCapital: bool): char {
    if !u.isUpper(r) then r else if afterCapital then u.toLower(r) else u.toUpper(u.toLower(r))
  }

  function Folded(u: Runes, x: string, afterCapital: bool): string {
    if x == [] then [] else [Returned(u, x[0], afterCapital)] + Folded(u, x[1..], u.isUpper(x[0]))
  }

  lemma {:induction false} PascalOfUnderscore(u: Runes, x: string, afterCapital: bool)
    requires u.Basic() && OnlyWords(u, x)
    ensures PascalFrom(u, UnderscoreFrom(u, x, false, afterCapital), false) == Folded(u, x, afterCapital)
  {
    if x != [] {
      assert forall r :: r in x[1..] ==> r in x;
      var upper := u.isUpper(x[0]);
      PascalOfUnderscore(u, x[1..], upper);
      var rest := UnderscoreFrom(u, x[1..], false, upper);
      var o := UnderscoreFrom(u, x, false, afterCapital);
      if upper && !afterCapital {
        assert o == ['_', u.toLower(x[0])] + rest;
        assert o[1..] == [u.toLower(x[0])] + rest && o[1..][1..] == rest;
      } else {
        assert o == [if upper then u.toLower(x[0]) else x[0]] + rest && o[1..] == rest;
      }
    }
  }

  /** The rune at `i` comes back, given whether a capital came before the string. */
  predicate Survives(u: Runes, x: string, afterCapital: bool, i: nat)
    requires i < |x|
  {
    Returned(u, x[i], if i == 0 then afterCapital else u.isUpper(x[i - 1])) == x[i]
  }

  lemma {:induction false} FoldedIsFixedIff(u: Runes, x: string, afterCapital: bool)
    ensures Folded(u, x, afterCapital) == x <==> forall i: nat :: i < |x| ==> Survives(u, x, afterCapital, i)
  {
    if x != [] {
      var t, upper := x[1..], u.isUpper(x[0]);
      FoldedIsFixedIff(u, t, upper);
      var f := Folded(u, x, afterCapital);
      assert f[1..] == Folded(u, t, upper);
      assert f == x <==> f[0] == x[0] && f[1..] == t by {
        assert f == [f[0]] + f[1..] && x == [x[0]] + t;
      }
      SurvivesInTail(u, x, afterCapital);
      assert Survives(u, x, afterCapital, 0) <==> f[0] == x[0];
    }
  }

  lemma SurvivesInTail(u: Runes, x: string, afterCapital: bool)
    requires x != []
    ensures (forall i: nat :: 0 < i < |x| ==> Survives(u, x, afterCapital, i)) <==>
      forall i: nat :: i < |x| - 1 ==> Survives(u, x[1..], u.isUpper(x[0]), i)
  {
    var t, upper := x[1..], u.isUpper(x[0]);
    assert forall i: nat :: i < |t| ==> (Survives(u, t, upper, i) <==> Survives(u, x, afterCapital, i + 1));
    if forall i: nat :: i < |t| ==> Survives(u, t, upper, i) {
      forall i: nat | 0 < i < |x|
        ensures Survives(u, x, afterCapital, i)
      {
        assert Survives(u, t, upper, i - 1);
      }
    }
  }

  /** The first rune is written in upper case, whatever it was. */
  predicate FirstSurvives(u: Runes, r: char) {
    u.toUpper(if u.isUpper(r) then u.toLower(r) else r) == r
  }

  /**
   A string survives the way to underscores and back exactly when it is made of
   letters and digits, its first rune is what upper case makes of its lower
   case, and so is every other capital, or its own lower case after a capital.
   */
  lemma PascalRoundTripIff(u: Runes, x: string)
    requires u.Basic()
    ensures Pascal(u, Underscore(u, x)) == x <==>
      && OnlyWords(u, x) && (x != [] ==> FirstSurvives(u, x[0]))
      && forall i: nat :: 0 < i < |x| ==> Survives(u, x, false, i)
  {
    var y := UnderscoreFrom(u, x, false, false);
    LeadingUnderscoresDoNotMatter(u, y);
    TrailingUnderscoresDoNotMatter(u, TrimLeft(y), true);
    PascalShape(u, y, true);
    if OnlyWords(u, x) && x != [] {
      FirstRune(u, x);
      var t, upper := x[1..], u.isUpper(x[0]);
      FoldedIsFixedIff(u, t, upper);
      assert x == [x[0]] + t;
      assert PascalFrom(u, y, true)[1..] == Folded(u, t, upper);
      SurvivesInTail(u, x, false);
    }
  }

  lemma FirstOfPascal(u: Runes, c: char, rest: string)
    requires u.Word(c) && !u.Word('_')
    ensures PascalFrom(u, [c] + rest, true) == [u.toUpper(c)] + PascalFrom(u, rest, false)
    ensures PascalFrom(u, ['_', c] + rest, true) == PascalFrom(u, [c] + rest, true)
  {
    assert ([c] + rest)[1..] == rest;
    assert (['_', c] + rest)[1..] == [c] + rest;
  }

  lemma FirstRune(u: Runes, x: string)
    requires u.Basic() && OnlyWords(u, x) && x != []
    ensures PascalFrom(u, UnderscoreFrom(u, x, false, false), true) ==
      [u.toUpper(if u.isUpper(x[0]) then u.toLower(x[0]) else x[0])] + Folded(u, x[1..], u.isUpper(x[0]))
  {
    assert x[0] in x && forall r :: r in x[1..] ==> r in x;
    var upper := u.isUpper(x[0]);
    var c, rest := if upper then u.toLower(x[0]) else x[0], UnderscoreFrom(u, x[1..], false, upper);
    PascalOfUnderscore(u, x[1..], upper);
    FirstOfPascal(u, c, rest);
    assert UnderscoreFrom(u, x, false, false) == if upper then ['_', c] + rest else [c] + rest;
  }

  predicate NoAdjacentCapitals(u: Runes, x: string) {
    forall i :: 0 <= i < |x| - 1 ==> !u.isUpper(x[i]) || !u.isUpper(x[i + 1])
  }

  /** For strings whose own capitals are paired: the first rune is in upper case and no two capitals are adjacent. */
  lemma PairedPascalRoundTripIff(u: Runes, x: string)
    requires u.Basic() && forall r :: r in x && u.isUpper(r) ==> u.Pair(r)
    ensures Pascal(u, Underscore(u, x)) == x <==>
      OnlyWords(u, x) && NoAdjacentCapitals(u, x) && (x != [] ==> u.toUpper(x[0]) == x[0])
  {
    PascalRoundTripIff(u, x);
    forall i: nat | 0 < i < |x|
      ensures Survives(u, x, false, i) <==> !u.isUpper(x[i - 1]) || !u.isUpper(x[i])
    {
      assert x[i] in x;
    }
    if x != [] {
      assert x[0] in x;
    }
    if forall i: nat :: 0 < i < |x| ==> Survives(u, x, false, i) {
      forall i | 0 <= i < |x| - 1
        ensures !u.isUpper(x[i]) || !u.isUpper(x[i + 1])
      {
        assert Survives(u, x, false, i + 1);
      }
    }
  }

  /** The dotted capital I is a letter and its own upper case, but comes back without its dot. */
  lemma DottedCapitalIsLost()
    ensures Pascal(EXTENDED, Underscore(EXTENDED, [DOTTED_I])) != [DOTTED_I]
    ensures EXTENDED.isLetter(DOTTED_I) && EXTENDED.toUpper(DOTTED_I) == DOTTED_I
  {
    ExtendedIsBasic();
    PascalRoundTripIff(EXTENDED, [DOTTED_I]);
    assert !FirstSurvives(EXTENDED, DOTTED_I);
  }

  // ---- Underscores, to Pascal case and back.

  predicate WordStart(s: string, i: int) {
    0 <= i < |s| && (i == 0 || s[i - 1] == '_')
  }

  /** The rune becomes a capital that leads back to it. */
  predicate HasCapital(u: Runes, r: char) {
    u.isUpper(u.toUpper(r)) && u.toLower(u.toUpper(r)) == r
  }

  /** The rune at `i` is a capital in the Pascal form. */
  predicate Capitalised(u: Runes, s: string, i: int) {
    0 <= i < |s| && u.isUpper(if WordStart(s, i) then u.toUpper(s[i]) else s[i])
  }

  /** The first rune is its own upper case, or comes back from it. */
  predicate FirstFits(u: Runes, r: char) {
    if u.isUpper(u.toUpper(r)) then u.toLower(u.toUpper(r)) == r else u.toUpper(r) == r
  }

  /**
   The rune at `i` comes back.  An underscore can be told from the capital after
   it, and brings the first rune of its word with it; any other capital is its
   own lower case and comes after a capital.
   */
  predicate Recoverable(u: Runes, s: string, i: int)
    requires 0 <= i < |s|
  {
    if s[i] == '_' then i + 1 < |s| && HasCapital(u, s[i + 1]) && !Capitalised(u, s, i - 1)
    else if i == 0 then FirstFits(u, s[0])
    else WordStart(s, i) || (u.isUpper(s[i]) ==> u.toLower(s[i]) == s[i] && Capitalised(u, s, i - 1))
  }

  predicate AllRecoverable(u: Runes, s: string, from: int) {
    forall i :: 0 <= from <= i < |s| ==> Recoverable(u, s, i)
  }

  /** Letters, digits and single underscores, with no underscore at the ends. */
  predicate Plain(u: Runes, s: string) {
    NoEdges(s) && NoDoubles(s) && WordsAndUnderscores(u, s)
  }

  /** An underscore and the first rune of its word come back together or not at all. */
  lemma UnderscoreComesBackIff(u: Runes, c: char, p: string, rest: string, capital: bool)
    requires u.Basic() && u.Word(c)
    ensures UnderscoreFrom(u, [u.toUpper(c)] + p, false, capital) == ['_', c] + rest <==>
      HasCapital(u, c) && !capital && UnderscoreFrom(u, p, false, true) == rest
  {
    var C := u.toUpper(c);
    assert ([C] + p)[1..] == p;
    var o := UnderscoreFrom(u, p, false, u.isUpper(C));
    var all := UnderscoreFrom(u, [C] + p, false, capital);
    assert all == Written(u, C, false, capital) + o;
    if u.isUpper(C) && !capital {
      assert all == ['_', u.toLower(C)] + o;
      assert all[1] == u.toLower(C) && all[2..] == o;
      assert (['_', c] + rest)[1] == c && (['_', c] + rest)[2..] == rest;
    } else {
      assert all[0] != '_';
    }
  }

  lemma RuneComesBackIff(u: Runes, r: char, p: string, rest: string, capital: bool)
    requires u.Basic() && u.Word(r)
    ensures UnderscoreFrom(u, [r] + p, false, capital) == [r] + rest <==>
      (u.isUpper(r) ==> u.toLower(r) == r && capital) && UnderscoreFrom(u, p, false, u.isUpper(r)) == rest
  {
    assert ([r] + p)[1..] == p;
    var o := UnderscoreFrom(u, p, false, u.isUpper(r));
    var all := UnderscoreFrom(u, [r] + p, false, capital);
    assert all == Written(u, r, false, capital) + o;
    assert ([r] + rest)[0] == r && ([r] + rest)[1..] == rest;
    if u.isUpper(r) && !capital {
      assert all[0] == '_';
    } else {
      assert all[1..] == o && all == [all[0]] + o;
    }
  }

  lemma RecoverableFrom(u: Runes, s: string, k: nat)
    requires k < |s|
    ensures AllRecoverable(u, s, k) <==> Recoverable(u, s, k) && AllRecoverable(u, s, k + 1)
  {
  }

  ghost predicate ComesBack(u: Runes, s: string, k: nat)
    requires k <= |s|
  {
    UnderscoreFrom(u, PascalFrom(u, s[k..], false), false, Capitalised(u, s, k - 1)) == s[k..]
  }

  lemma ComesBackAtUnderscore(u: Runes, s: string, k: nat)
    requires u.Basic() && Plain(u, s) && 0 < k < |s| && s[k] == '_'
    ensures k + 2 <= |s| && Recoverable(u, s, k + 1)
    ensures ComesBack(u, s, k) <==> Recoverable(u, s, k) && ComesBack(u, s, k + 2)
  {
    assert k + 1 < |s| && s[k + 1] != '_' && s[k + 1] in s;
    var c, p := s[k + 1], PascalFrom(u, s[k + 2..], false);
    assert s[k..][1..] == s[k + 1..] && s[k + 1..][1..] == s[k + 2..];
    assert PascalFrom(u, s[k..], false) == [u.toUpper(c)] + p;
    assert s[k..] == ['_', c] + s[k + 2..];
    UnderscoreComesBackIff(u, c, p, s[k + 2..], Capitalised(u, s, k - 1));
    assert Capitalised(u, s, k + 1) <==> u.isUpper(u.toUpper(c));
  }

  lemma ComesBackInWord(u: Runes, s: string, k: nat)
    requires u.Basic() && Plain(u, s) && 0 < k < |s| && s[k] != '_' && !WordStart(s, k)
    ensures ComesBack(u, s, k) <==> Recoverable(u, s, k) && ComesBack(u, s, k + 1)
  {
    assert s[k] in s;
    var p := PascalFrom(u, s[k + 1..], false);
    assert s[k..][1..] == s[k + 1..];
    RuneComesBackIff(u, s[k], p, s[k + 1..], Capitalised(u, s, k - 1));
    assert PascalFrom(u, s[k..], false) == [s[k]] + p;
    assert s[k..] == [s[k]] + s[k + 1..];
  }

  /** From a position inside a word, or at an underscore, the rest comes back exactly when all its runes do. */
  lemma {:induction false} RestComesBackIff(u: Runes, s: string, k: nat)
    requires u.Basic() && Plain(u, s) && 0 < k <= |s| && !WordStart(s, k)
    ensures ComesBack(u, s, k) <==> AllRecoverable(u, s, k)
    decreases |s| - k
  {
    if k < |s| {
      RecoverableFrom(u, s, k);
      if s[k] == '_' {
        ComesBackAtUnderscore(u, s, k);
        RecoverableFrom(u, s, k + 1);
        RestComesBackIff(u, s, k + 2);
      } else {
        ComesBackInWord(u, s, k);
        RestComesBackIff(u, s, k + 1);
      }
    }
  }

  /** A string survives the way to Pascal case and back exactly when it is plain and every rune of it comes back. */
  lemma UnderscoreRoundTripIff(u: Runes, s: string)
    requires u.Basic()
    ensures Underscore(u, Pascal(u, s)) == s <==> Plain(u, s) && AllRecoverable(u, s, 0)
  {
    UnderscoreNormalForm(u, Pascal(u, s));
    if s != [] && Plain(u, s) {
      assert s[0] in s && u.Word(s[0]);
      var C, p := u.toUpper(s[0]), PascalFrom(u, s[1..], false);
      PascalShape(u, s, true);
      var P := [C] + p;
      assert Pascal(u, s) == P && P[1..] == p;
      assert P[0] in P && P[|P| - 1] in P;
      UnderscoreOfPlain(u, P);
      RestComesBackIff(u, s, 1);
      RecoverableFrom(u, s, 0);
      var o := UnderscoreFrom(u, p, false, u.isUpper(C));
      var r := if u.isUpper(C) then u.toLower(C) else C;
      assert s == [s[0]] + s[1..];
      assert ([r] + o)[0] == r && ([r] + o)[1..] == o;
    }
  }

  /** If every capital of the Pascal form has a lower case, no string with a capital survives. */
  lemma SnakeRoundTripIff(u: Runes, s: string)
    requires u.Basic() && CanLower(u, Pascal(u, s))
    ensures Underscore(u, Pascal(u, s)) == s <==>
      && Snake(u, s) && (s != [] ==> FirstFits(u, s[0]))
      && forall i :: 0 <= i < |s| && s[i] == '_' ==> Recoverable(u, s, i)
  {
    UnderscoreRoundTripIff(u, s);
    UnderscoreNormalForm(u, Pascal(u, s));
    if Snake(u, s) && s != [] && FirstFits(u, s[0]) {
      forall i | 0 <= i < |s| && s[i] != '_'
        ensures Recoverable(u, s, i)
      {
        assert s[i] in s;
      }
    }
    if s != [] && AllRecoverable(u, s, 0) {
      assert Recoverable(u, s, 0);
    }
  }

  /** The documented case: words start with a lower-case letter and, except the last, have two runes or more. */
  lemma UnderscoreRoundTrip(u: Runes, s: string)
    requires u.Basic() && Snake(u, s)
    requires forall i :: WordStart(s, i) ==> HasCapital(u, s[i])
    requires forall i :: 0 <= i < |s| && s[i] == '_' ==> !WordStart(s, i - 1)
    ensures Underscore(u, Pascal(u, s)) == s
  {
    UnderscoreRoundTripIff(u, s);
    forall i | 0 <= i < |s|
      ensures Recoverable(u, s, i)
    {
      assert s[i] in s;
      if s[i] == '_' {
        assert WordStart(s, i + 1) && s[i - 1] in s;
      }
    }
  }
}
