/**
 Reading numbers written in words (src/modules/collation/ocr-ec8a-words.ts:1-51, 111-181). Input
 is a list of lower-case tokens, as the tokenizer leaves them.
 */
module NumberWords {
  import opened Collections

  /** What a token means to the parser. */
  datatype Word =
    | Zero
    | Ones(value: nat)
    | Tens(value: nat)
    | Hundred
    | Thousand
    | And
    | Figure(digits: nat)
    | Other
    | Blank

  // Tokens.

  predicate IsDigit(c: char) {
    '0' <= c <= '9'
  }

  predicate AllDigits(token: string) {
    token != "" && forall i :: 0 <= i < |token| ==> IsDigit(token[i])
  }

  function DigitsValue(token: string): (n: nat)
    requires forall i :: 0 <= i < |token| ==> IsDigit(token[i])
  {
    if token == "" then 0
    else
      assert IsDigit(token[|token| - 1]);
      DigitsValue(token[..|token| - 1]) * 10 + (token[|token| - 1] as int - '0' as int)
  }

  /** Letters only. */
  function Letters(token: string): string {
    Filter(token, (c: char) => 'a' <= c <= 'z')
  }

  function Alias(raw: string): string {
    match raw
    case "tho" => "two"
    case "ohe" => "one"
    case "lero" => "zero"
    case "zaro" => "zero"
    case "seventh" => "seventy"
    case "ninty" => "ninety"
    case _ => raw
  }

  /** The tables of ones and tens, after normalisation. */
  function WordOf(word: string): Word {
    match word
    case "zero" | "zebo" | "zevo" | "zaro" | "lero" => Zero
    case "one" | "ohe" => Ones(1)
    case "two" | "tho" => Ones(2)
    case "three" => Ones(3)
    case "four" => Ones(4)
    case "five" => Ones(5)
    case "six" => Ones(6)
    case "seven" => Ones(7)
    case "eight" => Ones(8)
    case "nine" => Ones(9)
    case "ten" => Ones(10)
    case "eleven" => Ones(11)
    case "twelve" => Ones(12)
    case "thirteen" => Ones(13)
    case "fourteen" => Ones(14)
    case "fifteen" => Ones(15)
    case "sixteen" => Ones(16)
    case "seventeen" => Ones(17)
    case "eighteen" => Ones(18)
    case "nineteen" => Ones(19)
    case "twenty" => Tens(20)
    case "thirty" => Tens(30)
    case "forty" | "fourty" => Tens(40)
    case "fifty" => Tens(50)
    case "sixty" => Tens(60)
    case "seventy" | "seventh" => Tens(70)
    case "eighty" => Tens(80)
    case "ninety" | "ninty" => Tens(90)
    case "hundred" => Hundred
    case "thousand" => Thousand
    case "and" => And
    case _ => if word == "" then Blank else Other
  }

  function Lex(token: string): Word {
    if AllDigits(token) then Figure(DigitsValue(token)) else WordOf(Alias(Letters(token)))
  }

  function LexAll(tokens: seq<string>): seq<Word> {
    seq(|tokens|, i requires 0 <= i < |tokens| => Lex(tokens[i]))
  }

  // The parser, as a scan over words.

  datatype Parsed = Parsed(value: nat, consumed: nat)

  /** The state of the loop: finished thousands, the group being read, and the words used. */
  datatype Scan = Scan(total: nat, current: nat, consumed: nat)

  function Value(a: Scan): nat {
    a.total + a.current
  }

  /** The word does not continue the number read so far. */
  predicate Breaks(a: Scan, w: Word) {
    match w
    case And => a.consumed == 0
    case Ones(_) => 1 <= a.current <= 19 || a.current % 10 != 0
    case Tens(_) => a.current % 100 != 0
    case Hundred => false
    case Thousand => false
    case _ => true
  }

  function Extend(a: Scan, w: Word): Scan
    requires !Breaks(a, w)
  {
    var group := if a.current == 0 then 1 else a.current;
    match w
    case And => a.(consumed := a.consumed + 1)
    case Ones(n) => a.(current := a.current + n, consumed := a.consumed + 1)
    case Tens(n) => a.(current := a.current + n, consumed := a.consumed + 1)
    case Hundred => a.(current := group * 100, consumed := a.consumed + 1)
    case Thousand => Scan(a.total + group * 1000, 0, a.consumed + 1)
    case _ => a
  }

  function ScanFrom(ws: seq<Word>, a: Scan): (r: Scan)
    ensures a.consumed <= r.consumed <= a.consumed + |ws|
  {
    if ws == [] || Breaks(a, ws[0]) then a else ScanFrom(ws[1..], Extend(a, ws[0]))
  }

  lemma ScanStep(ws: seq<Word>, i: nat, a: Scan)
    requires i < |ws|
    ensures ScanFrom(ws[i..], a) == if Breaks(a, ws[i]) then a else ScanFrom(ws[i + 1..], Extend(a, ws[i]))
  {
    assert ws[i..][1..] == ws[i + 1..];
  }

  lemma ScanStops(ws: seq<Word>, a: Scan)
    requires ws == [] || Breaks(a, ws[0])
    ensures ScanFrom(ws, a) == a
  {
  }

  /** `parseNumberWords` at the start of `ws`. */
  function Parse(ws: seq<Word>): (r: Option<Parsed>)
    ensures r.Some? ==> 1 <= r.value.consumed <= |ws|
  {
    if ws == [] || ws[0] == Blank || ws[0].Figure? then None
    else if ws[0] == Zero then Some(Parsed(0, 1))
    else
      var r := ScanFrom(ws, Scan(0, 0, 0));
      if r.consumed == 0 then None else Some(Parsed(Value(r), r.consumed))
  }

  method ParseNumberWords(tokens: seq<string>, start: nat) returns (r: Option<Parsed>)
    ensures r == Parse(if start <= |tokens| then LexAll(tokens)[start..] else [])
  {
    r := ParseWordsAt(LexAll(tokens), start);
  }

  method ParseWordsAt(ws: seq<Word>, start: nat) returns (r: Option<Parsed>)
    ensures r == Parse(if start <= |ws| then ws[start..] else [])
  {
    if start >= |ws| {
      return None;
    }
    var first := ws[start];
    if first == Blank || first.Figure? {
      return None;
    }
    if first == Zero {
      return Some(Parsed(0, 1));
    }
    r := ScanWords(ws, start);
  }

  method ScanWords(ws: seq<Word>, start: nat) returns (r: Option<Parsed>)
    requires start < |ws|
    ensures var a := ScanFrom(ws[start..], Scan(0, 0, 0));
      r == if a.consumed == 0 then None else Some(Parsed(Value(a), a.consumed))
  {
    hide ScanFrom;
    var total: nat, current: nat, consumed: nat, i := 0, 0, 0, start;
    while i < |ws|
      invariant start <= i <= |ws| && consumed == i - start
      invariant ScanFrom(ws[start..], Scan(0, 0, 0)) == ScanFrom(ws[i..], Scan(total, current, consumed))
    {
      ScanStep(ws, i, Scan(total, current, consumed));
      if Breaks(Scan(total, current, consumed), ws[i]) {
        break;
      }
      match ws[i] {
        case And =>
        case Ones(n) => current := current + n;
        case Tens(n) => current := current + n;
        case Hundred => current := (if current == 0 then 1 else current) * 100;
        case Thousand => total, current := total + (if current == 0 then 1 else current) * 1000, 0;
        case _ =>
      }
      i := i + 1;
      consumed := consumed + 1;
    }
    ScanStops(ws[i..], Scan(total, current, consumed));
    return if consumed == 0 then None else Some(Parsed(total + current, consumed));
  }

  // Canonical English numerals.

  const LIMIT := 1_000_000

  function BelowHundred(n: nat): seq<Word>
    requires 0 < n < 100
  {
    if n < 20 then [Ones(n)] else if n % 10 == 0 then [Tens(n)] else [Tens(n - n % 10), Ones(n % 10)]
  }

  /** `joined` puts an "and" before a remainder below one hundred. */
  function BelowThousand(n: nat, joined: bool): seq<Word>
    requires 0 < n < 1000
  {
    if n < 100 then BelowHundred(n)
    else
      [Ones(n / 100), Hundred]
      + if n % 100 == 0 then [] else Remainder(joined, BelowHundred(n % 100))
  }

  function Numeral(n: nat, joined: bool): seq<Word>
    requires n < LIMIT
  {
    if n == 0 then [Zero]
    else if n < 1000 then BelowThousand(n, joined)
    else
      BelowThousand(n / 1000, joined) + [Thousand] + Tail(n % 1000, joined)
  }

  /** From state `a`, reading exactly `ws` leads to state `b`, whatever follows. */
  ghost predicate Reads(ws: seq<Word>, a: Scan, b: Scan) {
    forall rest {:trigger ScanFrom(ws + rest, a)} :: ScanFrom(ws + rest, a) == ScanFrom(rest, b)
  }

  lemma ReadsNothing(a: Scan)
    ensures Reads([], a, a)
  {
    forall rest ensures ScanFrom([] + rest, a) == ScanFrom(rest, a) {
      assert [] + rest == rest;
    }
  }

  lemma ReadsWord(w: Word, a: Scan)
    requires !Breaks(a, w)
    ensures Reads([w], a, Extend(a, w))
  {
    forall rest ensures ScanFrom([w] + rest, a) == ScanFrom(rest, Extend(a, w)) {
      assert ([w] + rest)[1..] == rest;
    }
  }

  lemma ReadsBoth(v: seq<Word>, w: seq<Word>, a: Scan, b: Scan, c: Scan)
    requires Reads(v, a, b) && Reads(w, b, c)
    ensures Reads(v + w, a, c)
  {
    forall rest ensures ScanFrom((v + w) + rest, a) == ScanFrom(rest, c) {
      assert (v + w) + rest == v + (w + rest);
    }
  }

  lemma HundredsTakeAny(c: nat)
    requires c % 100 == 0
    ensures c % 10 == 0 && !(1 <= c <= 19)
  {
    var k := c / 100;
    assert c == 10 * (10 * k);
  }

  lemma TensTakeOnes(c: nat, t: nat)
    requires c % 100 == 0 && t % 10 == 0 && 20 <= t
    ensures (c + t) % 10 == 0 && !(1 <= c + t <= 19)
  {
    var k, d := c / 100, t / 10;
    assert c == 100 * k && t == 10 * d;
    assert c + t == 10 * (10 * k + d);
  }

  lemma ReadsHundred(n: nat, a: Scan)
    requires 0 < n < 100 && a.current % 100 == 0
    ensures Reads(BelowHundred(n), a, Scan(a.total, a.current + n, a.consumed + |BelowHundred(n)|))
  {
    hide Reads;
    HundredsTakeAny(a.current);
    if n < 20 {
      ReadsWord(Ones(n), a);
    } else if n % 10 == 0 {
      ReadsWord(Tens(n), a);
    } else {
      ReadsTensOnes(n - n % 10, n % 10, a);
    }
  }

  lemma ReadsTensOnes(t: nat, d: nat, a: Scan)
    requires a.current % 100 == 0 && t % 10 == 0 && 20 <= t
    ensures Reads([Tens(t), Ones(d)], a, Scan(a.total, a.current + (t + d), a.consumed + 2))
  {
    TensTakeOnes(a.current, t);
    var b := Extend(a, Tens(t));
    ReadsWord(Tens(t), a);
    ReadsWord(Ones(d), b);
    ReadsBoth([Tens(t)], [Ones(d)], a, b, Extend(b, Ones(d)));
    assert [Tens(t)] + [Ones(d)] == [Tens(t), Ones(d)];
  }

  /** The part of a numeral after its hundreds or thousands: an optional "and", then a smaller numeral. */
  function Remainder(use: bool, words: seq<Word>): seq<Word> {
    (if use then [And] else []) + words
  }

  lemma ReadsRemainder(use: bool, words: seq<Word>, a: Scan, b: Scan)
    requires a.consumed > 0
    requires Reads(words, Scan(a.total, a.current, a.consumed + if use then 1 else 0), b)
    ensures Reads(Remainder(use, words), a, b)
  {
    if use {
      ReadsWord(And, a);
      ReadsBoth([And], words, a, Extend(a, And), b);
    } else {
      assert Remainder(use, words) == words;
    }
  }

  lemma ReadsHundreds(h: nat, a: Scan)
    requires 1 <= h <= 9 && a.current == 0
    ensures Reads([Ones(h), Hundred], a, Scan(a.total, h * 100, a.consumed + 2))
  {
    var b := Extend(a, Ones(h));
    ReadsWord(Ones(h), a);
    ReadsWord(Hundred, b);
    ReadsBoth([Ones(h)], [Hundred], a, b, Extend(b, Hundred));
    assert [Ones(h)] + [Hundred] == [Ones(h), Hundred];
  }

  lemma ReadsThousand(n: nat, joined: bool, a: Scan)
    requires 0 < n < 1000 && a.current == 0
    ensures Reads(BelowThousand(n, joined), a, Scan(a.total, n, a.consumed + |BelowThousand(n, joined)|))
  {
    hide Reads, BelowHundred;
    if n < 100 {
      ReadsHundred(n, a);
    } else {
      var h, low := n / 100, n % 100;
      var b, c := Scan(a.total, h * 100, a.consumed + 2), Scan(a.total, n, a.consumed + |BelowThousand(n, joined)|);
      ReadsHundreds(h, a);
      if low == 0 {
        assert BelowThousand(n, joined) == [Ones(h), Hundred];
      } else {
        ReadsHundred(low, Scan(b.total, b.current, b.consumed + if joined then 1 else 0));
        ReadsRemainder(joined, BelowHundred(low), b, c);
        ReadsBoth([Ones(h), Hundred], Remainder(joined, BelowHundred(low)), a, b, c);
      }
    }
  }

  lemma ReadsThousands(high: nat, joined: bool)
    requires 0 < high < 1000
    ensures Reads(BelowThousand(high, joined) + [Thousand], Scan(0, 0, 0),
                  Scan(high * 1000, 0, |BelowThousand(high, joined)| + 1))
  {
    var words := BelowThousand(high, joined);
    var a := Scan(0, high, |words|);
    ReadsThousand(high, joined, Scan(0, 0, 0));
    ReadsWord(Thousand, a);
    ReadsBoth(words, [Thousand], Scan(0, 0, 0), a, Extend(a, Thousand));
  }

  /** After a whole numeral the open group holds what follows the last "thousand". */
  lemma ReadsNumeral(n: nat, joined: bool)
    requires 0 < n < LIMIT
    ensures Reads(Numeral(n, joined), Scan(0, 0, 0), Scan(n - n % 1000, n % 1000, |Numeral(n, joined)|))
  {
    hide Reads, BelowThousand, Tail;
    if n < 1000 {
      ReadsThousand(n, joined, Scan(0, 0, 0));
    } else {
      var high, low := n / 1000, n % 1000;
      assert n == high * 1000 + low;
      assert Numeral(n, joined) == BelowThousand(high, joined) + [Thousand] + Tail(low, joined);
      ReadsLongNumeral(high, low, joined);
    }
  }

  function Tail(low: nat, joined: bool): seq<Word>
    requires low < 1000
  {
    if low == 0 then [] else Remainder(joined && low < 100, BelowThousand(low, joined))
  }

  lemma ReadsLongNumeral(high: nat, low: nat, joined: bool)
    requires 0 < high < 1000 && low < 1000
    ensures var words := BelowThousand(high, joined) + [Thousand] + Tail(low, joined);
      Reads(words, Scan(0, 0, 0), Scan(high * 1000, low, |words|))
  {
    hide BelowThousand, Reads;
    var head := BelowThousand(high, joined) + [Thousand];
    var b := Scan(high * 1000, 0, |head|);
    var c := Scan(high * 1000, low, |head + Tail(low, joined)|);
    ReadsThousands(high, joined);
    if low == 0 {
      ReadsNothing(b);
    } else {
      var use := joined && low < 100;
      ReadsThousand(low, joined, Scan(b.total, 0, b.consumed + if use then 1 else 0));
      ReadsRemainder(use, BelowThousand(low, joined), b, c);
    }
    ReadsBoth(head, Tail(low, joined), Scan(0, 0, 0), b, c);
  }

  /** Reading on never makes a number smaller. */
  lemma {:induction false} ScanGrows(ws: seq<Word>, a: Scan)
    ensures Value(ScanFrom(ws, a)) >= Value(a)
  {
    if ws != [] && !Breaks(a, ws[0]) {
      ScanGrows(ws[1..], Extend(a, ws[0]));
    }
  }

  // Where a numeral ends.

  /** The words after a numeral for `n` do not continue it. */
  predicate StopsBefore(n: nat, rest: seq<Word>) {
    n == 0 || rest == [] || Breaks(Scan(n - n % 1000, n % 1000, 1), rest[0])
  }

  /** What the first word of a numeral can be. */
  predicate IsLeading(w: Word, tens: bool) {
    if tens then w.Tens? && 20 <= w.value <= 90 else w.Ones? && 1 <= w.value <= 19
  }

  /** The numeral starts with "twenty" to "ninety". */
  predicate StartsWithTens(m: nat) {
    var group := if m < 1000 then m else m / 1000;
    20 <= group < 100
  }

  lemma GroupStart(n: nat, joined: bool)
    requires 0 < n < 1000
    ensures BelowThousand(n, joined) != [] && IsLeading(BelowThousand(n, joined)[0], 20 <= n < 100)
  {
  }

  lemma NumeralStart(n: nat, joined: bool)
    requires 0 < n < LIMIT
    ensures Numeral(n, joined) != [] && IsLeading(Numeral(n, joined)[0], StartsWithTens(n))
  {
    GroupStart(if n < 1000 then n else n / 1000, joined);
  }

  /** The parser inverts the printer and stops at the right token, whatever comes after. */
  lemma ParseInvertsNumeral(n: nat, joined: bool, rest: seq<Word>)
    requires n < LIMIT && StopsBefore(n, rest)
    ensures Parse(Numeral(n, joined) + rest) == Some(Parsed(n, |Numeral(n, joined)|))
  {
    if n > 0 {
      NumeralStart(n, joined);
      ReadsNumeral(n, joined);
    }
  }

  /** An unknown word, a blank, a zero or a figure ends a number: the parser stops in front of it. */
  lemma ParseStopsAtOtherWord(n: nat, joined: bool, w: Word, rest: seq<Word>)
    requires n < LIMIT && (w == Other || w == Blank || w == Zero || w.Figure?)
    ensures Parse(Numeral(n, joined) + [w] + rest) == Some(Parsed(n, |Numeral(n, joined)|))
  {
    hide Parse, Numeral;
    assert Numeral(n, joined) + [w] + rest == Numeral(n, joined) + ([w] + rest);
    ParseInvertsNumeral(n, joined, [w] + rest);
  }

  /** And none of these but a zero starts one. */
  lemma ParseStartsAtNumberWord(w: Word, rest: seq<Word>)
    requires w == Other || w == Blank || w == And || w.Figure?
    ensures Parse([w] + rest) == None
  {
  }

  /** Otherwise it reads on into the next numeral and the value comes out too large. */
  lemma ParseRunsOn(n: nat, joined: bool, rest: seq<Word>)
    requires n < LIMIT && !StopsBefore(n, rest)
    requires (rest[0].Ones? || rest[0].Tens?) && rest[0].value > 0
    ensures Parse(Numeral(n, joined) + rest).Some? && Parse(Numeral(n, joined) + rest).value.value > n
  {
    NumeralStart(n, joined);
    ReadsNumeral(n, joined);
    var a := Scan(n - n % 1000, n % 1000, |Numeral(n, joined)|);
    ScanGrows(rest[1..], Extend(a, rest[0]));
  }

  /** A numeral for `n` and then one for `m`, as a condition on the numbers. */
  predicate EndsClearly(n: nat, m: nat) {
    var group := n % 1000;
    || n == 0 || m == 0
    || (if StartsWithTens(m) then group % 100 != 0 else 1 <= group <= 19 || group % 10 != 0)
  }

  lemma StopsBeforeNumeral(n: nat, m: nat, joined: bool, rest: seq<Word>)
    requires n < LIMIT && m < LIMIT
    ensures StopsBefore(n, Numeral(m, joined) + rest) <==> EndsClearly(n, m)
  {
    if m > 0 {
      NumeralStart(m, joined);
      assert (Numeral(m, joined) + rest)[0] == Numeral(m, joined)[0];
    }
  }

  // Spelling.

  function Spell(w: Word): string {
    match w
    case Zero => "zero"
    case Hundred => "hundred"
    case Thousand => "thousand"
    case And => "and"
    case Ones(n) =>
      (match n
       case 1 => "one" case 2 => "two" case 3 => "three" case 4 => "four" case 5 => "five"
       case 6 => "six" case 7 => "seven" case 8 => "eight" case 9 => "nine" case 10 => "ten"
       case 11 => "eleven" case 12 => "twelve" case 13 => "thirteen" case 14 => "fourteen" case 15 => "fifteen"
       case 16 => "sixteen" case 17 => "seventeen" case 18 => "eighteen" case 19 => "nineteen" case _ => "")
    case Tens(n) =>
      (match n
       case 20 => "twenty" case 30 => "thirty" case 40 => "forty" case 50 => "fifty"
       case 60 => "sixty" case 70 => "seventy" case 80 => "eighty" case 90 => "ninety" case _ => "")
    case _ => ""
  }

  /** The words that numerals are made of. */
  predicate IsNumeralWord(w: Word) {
    match w
    case Zero | Hundred | Thousand | And => true
    case Ones(n) => 1 <= n <= 19
    case Tens(n) => n in {20, 30, 40, 50, 60, 70, 80, 90}
    case _ => false
  }

  lemma {:induction false} LettersOfWord(token: string)
    requires forall i :: 0 <= i < |token| ==> 'a' <= token[i] <= 'z'
    ensures Letters(token) == token
  {
    if token != "" {
      LettersOfWord(token[1..]);
      FilterSame(token[1..], (c: char) => 'a' <= c <= 'z', (c: char) => 'a' <= c <= 'z');
    }
  }

  /** A token of letters that is no alias means what the tables say. */
  lemma {:induction false} LexTable(token: string, w: Word)
    requires token != "" && forall i :: 0 <= i < |token| ==> 'a' <= token[i] <= 'z'
    requires Alias(token) == token && WordOf(token) == w
    ensures Lex(token) == w
  {
    LettersOfWord(token);
    assert !IsDigit(token[0]);
  }

  lemma {:induction false} LexOnesToFive(n: nat)
    requires 1 <= n <= 5
    ensures Lex(Spell(Ones(n))) == Ones(n)
  {
    hide Lex;
    match n
    case 1 => LexTable("one", Ones(1));
    case 2 => LexTable("two", Ones(2));
    case 3 => LexTable("three", Ones(3));
    case 4 => LexTable("four", Ones(4));
    case 5 => LexTable("five", Ones(5));
  }

  lemma {:induction false} LexOnesToTen(n: nat)
    requires 6 <= n <= 10
    ensures Lex(Spell(Ones(n))) == Ones(n)
  {
    hide Lex;
    match n
    case 6 => LexTable("six", Ones(6));
    case 7 => LexTable("seven", Ones(7));
    case 8 => LexTable("eight", Ones(8));
    case 9 => LexTable("nine", Ones(9));
    case 10 => LexTable("ten", Ones(10));
  }

  lemma {:induction false} LexTeensToFifteen(n: nat)
    requires 11 <= n <= 15
    ensures Lex(Spell(Ones(n))) == Ones(n)
  {
    hide Lex;
    match n
    case 11 => LexTable("eleven", Ones(11));
    case 12 => LexTable("twelve", Ones(12));
    case 13 => LexTable("thirteen", Ones(13));
    case 14 => LexTable("fourteen", Ones(14));
    case 15 => LexTable("fifteen", Ones(15));
  }

  lemma {:induction false} LexTeensToNineteen(n: nat)
    requires 16 <= n <= 19
    ensures Lex(Spell(Ones(n))) == Ones(n)
  {
    hide Lex;
    match n
    case 16 => LexTable("sixteen", Ones(16));
    case 17 => LexTable("seventeen", Ones(17));
    case 18 => LexTable("eighteen", Ones(18));
    case 19 => LexTable("nineteen", Ones(19));
  }

  lemma {:induction false} LexTensToFifty(n: nat)
    requires n in {20, 30, 40, 50}
    ensures Lex(Spell(Tens(n))) == Tens(n)
  {
    hide Lex;
    match n
    case 20 => LexTable("twenty", Tens(20));
    case 30 => LexTable("thirty", Tens(30));
    case 40 => LexTable("forty", Tens(40));
    case 50 => LexTable("fifty", Tens(50));
  }

  lemma {:induction false} LexTensToNinety(n: nat)
    requires n in {60, 70, 80, 90}
    ensures Lex(Spell(Tens(n))) == Tens(n)
  {
    hide Lex;
    match n
    case 60 => LexTable("sixty", Tens(60));
    case 70 => LexTable("seventy", Tens(70));
    case 80 => LexTable("eighty", Tens(80));
    case 90 => LexTable("ninety", Tens(90));
  }

  /** Every canonical word is in the tables under its own spelling. */
  lemma {:induction false} LexSpell(w: Word)
    requires IsNumeralWord(w)
    ensures Lex(Spell(w)) == w
  {
    match w
    case Ones(n) =>
      if n <= 5 { LexOnesToFive(n); }
      else if n <= 10 { LexOnesToTen(n); }
      else if n <= 15 { LexTeensToFifteen(n); }
      else { LexTeensToNineteen(n); }
    case Tens(n) =>
      if n <= 50 { LexTensToFifty(n); } else { LexTensToNinety(n); }
    case Zero => LexTable("zero", Zero);
    case Hundred => LexTable("hundred", Hundred);
    case Thousand => LexTable("thousand", Thousand);
    case And => LexTable("and", And);
  }

  /** Every spelling the tables and aliases know. */
  const NUMBER_WORDS: set<string> := {
    "zero", "zebo", "zevo", "zaro", "lero", "one", "ohe", "two", "tho", "three", "four", "five", "six", "seven",
    "eight", "nine", "ten", "eleven", "twelve", "thirteen", "fourteen", "fifteen", "sixteen", "seventeen",
    "eighteen", "nineteen", "twenty", "thirty", "forty", "fourty", "fifty", "sixty", "seventy", "seventh",
    "eighty", "ninety", "ninty", "hundred", "thousand", "and"}

  /** A token that is neither a figure nor any spelling of a number word, whatever digits stand among its letters. */
  predicate IsUnknown(token: string) {
    !AllDigits(token) && Letters(token) != "" && Letters(token) !in NUMBER_WORDS
  }

  lemma LexUnknown(token: string)
    requires IsUnknown(token)
    ensures Lex(token) == Other
  {
    hide Letters, AllDigits;
  }

  lemma LettersOfLetters(token: string)
    ensures Letters(Letters(token)) == Letters(token)
  {
    assert forall i :: 0 <= i < |Letters(token)| ==> Letters(token)[i] in Letters(token);
    LettersOfWord(Letters(token));
  }

  /** Only the letters of a token count, unless it is a figure. */
  lemma LexByLetters(token: string)
    requires !AllDigits(token)
    ensures Lex(token) == Lex(Letters(token))
    ensures forall c :: c in Letters(token) <==> c in token && 'a' <= c <= 'z'
  {
    hide WordOf, Alias;
    LettersOfLetters(token);
    if Letters(token) != "" {
      assert Letters(token)[0] in Letters(token);
      assert !IsDigit(Letters(token)[0]);
    }
  }

  /** The spellings of misread words. */
  lemma LexMisreadings()
    ensures Lex("zebo") == Lex("zevo") == Lex("zaro") == Lex("lero") == Zero
    ensures Lex("ohe") == Ones(1) && Lex("tho") == Ones(2)
    ensures Lex("fourty") == Tens(40) && Lex("seventh") == Tens(70) && Lex("ninty") == Tens(90)
  {
    hide Lex;
    LexAlias("zebo", Zero);
    LexAlias("zevo", Zero);
    LexAlias("zaro", Zero);
    LexAlias("lero", Zero);
    LexAlias("ohe", Ones(1));
    LexAlias("tho", Ones(2));
    LexAlias("fourty", Tens(40));
    LexAlias("seventh", Tens(70));
    LexAlias("ninty", Tens(90));
  }

  lemma LexAlias(token: string, w: Word)
    requires token != "" && forall i :: 0 <= i < |token| ==> 'a' <= token[i] <= 'z'
    requires WordOf(Alias(token)) == w
    ensures Lex(token) == w
  {
    hide WordOf, Alias;
    LettersOfWord(token);
    assert !IsDigit(token[0]);
  }

  function Digit(d: nat): (c: char)
    requires d < 10
    ensures IsDigit(c) && c as int - '0' as int == d
  {
    (('0' as int) + d) as char
  }

  function Decimal(n: nat): (token: string)
    ensures token != "" && forall i :: 0 <= i < |token| ==> IsDigit(token[i])
  {
    if n < 10 then [Digit(n)] else Decimal(n / 10) + [Digit(n % 10)]
  }

  lemma {:induction false} DecimalValue(n: nat)
    ensures DigitsValue(Decimal(n)) == n
  {
    if n < 10 {
      assert Decimal(n)[..0] == "";
    } else {
      DecimalValue(n / 10);
      assert Decimal(n)[..|Decimal(n)| - 1] == Decimal(n / 10);
    }
  }

  /** How a word of a printed column is written. */
  function Token(w: Word): string {
    if w.Figure? then Decimal(w.digits) else Spell(w)
  }

  /** The lexer inverts the spelling of every word a column is made of. */
  lemma LexToken(w: Word)
    requires w.Figure? || IsNumeralWord(w)
    ensures Lex(Token(w)) == w
  {
    if w.Figure? {
      DecimalValue(w.digits);
    } else {
      LexSpell(w);
    }
  }

  lemma GroupWords(n: nat, joined: bool)
    requires 0 < n < 1000
    ensures forall w :: w in BelowThousand(n, joined) ==> IsNumeralWord(w)
  {
    if n >= 100 && n % 100 != 0 {
      HundredWords(n % 100);
    } else if n < 100 {
      HundredWords(n);
    }
  }

  lemma HundredWords(n: nat)
    requires 0 < n < 100
    ensures forall w :: w in BelowHundred(n) ==> IsNumeralWord(w)
  {
    if n >= 20 {
      var t := n / 10;
      assert n - n % 10 == 10 * t && 2 <= t <= 9;
    }
  }

  lemma {:induction false} NumeralWords(n: nat, joined: bool)
    requires n < LIMIT
    ensures forall w :: w in Numeral(n, joined) ==> IsNumeralWord(w)
  {
    if 0 < n < 1000 {
      GroupWords(n, joined);
    } else if n >= 1000 {
      GroupWords(n / 1000, joined);
      if n % 1000 != 0 {
        GroupWords(n % 1000, joined);
      }
    }
  }
}
