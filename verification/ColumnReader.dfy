/**
 Reading a whole column of party scores written in words, with or without figures beside them
 (src/modules/collation/ocr-ec8a-parse.ts:246-276).
 */
module ColumnReader {
  import opened Collections
  import opened NumberWords

  /** The loop of `extractWordScoresFrom`, until the words or `room` for scores run out. */
  function Collect(ws: seq<Word>, room: nat): (scores: seq<nat>)
    ensures |scores| <= room
    decreases |ws|
  {
    if ws == [] || room == 0 then []
    else
      var parsed := Parse(ws);
      if parsed.Some? then [parsed.value.value] + Collect(ws[parsed.value.consumed..], room - 1)
      else if ws[0].Figure? then
        var next := Parse(ws[1..]);
        if next.Some? && next.value.value == ws[0].digits
        then [ws[0].digits] + Collect(ws[1..][next.value.consumed..], room - 1)
        else Collect(ws[1..], room)
      else Collect(ws[1..], room)
  }

  /** One score too many is the total at the foot of the column; more than that is cut off. */
  function Trimmed(scores: seq<nat>, expected: nat): seq<nat> {
    var kept := if |scores| == expected + 1 then scores[..expected] else scores;
    if expected == 0 || |kept| <= expected then kept else kept[..expected]
  }

  function ReadColumn(ws: seq<Word>, expected: nat): seq<nat> {
    Trimmed(Collect(ws, expected + 2), expected)
  }

  lemma CollectParsed(ws: seq<Word>, p: Parsed, room: nat)
    requires Parse(ws) == Some(p) && room > 0
    ensures Collect(ws, room) == [p.value] + Collect(ws[p.consumed..], room - 1)
  {
  }

  lemma CollectFigure(d: nat, ws: seq<Word>, p: Option<Parsed>, room: nat)
    requires Parse(ws) == p && room > 0
    ensures Collect([Figure(d)] + ws, room) ==
      if p.Some? && p.value.value == d then [d] + Collect(ws[p.value.consumed..], room - 1) else Collect(ws, room)
  {
    assert ([Figure(d)] + ws)[0] == Figure(d) && ([Figure(d)] + ws)[1..] == ws;
  }

  /** Whatever stands behind it, a figure never changes what is read: the words decide. */
  lemma FiguresAreIgnored(d: nat, ws: seq<Word>, room: nat)
    ensures Collect([Figure(d)] + ws, room) == Collect(ws, room)
  {
    hide Parse;
    if room > 0 {
      CollectFigure(d, ws, Parse(ws), room);
      if Parse(ws).Some? {
        CollectParsed(ws, Parse(ws).value, room);
      }
    }
  }

  lemma UnknownsAreIgnored(ws: seq<Word>, room: nat)
    ensures Collect([Other] + ws, room) == Collect(ws, room)
  {
    hide Parse;
    if room > 0 {
      ParseStartsAtNumberWord(Other, ws);
      CollectSkipped([Other] + ws, room);
      assert ([Other] + ws)[1..] == ws;
    }
  }

  lemma CollectStops(ws: seq<Word>, room: nat)
    requires ws == [] || room == 0
    ensures Collect(ws, room) == []
  {
  }

  lemma CollectSkipped(ws: seq<Word>, room: nat)
    requires ws != [] && Parse(ws) == None && !ws[0].Figure? && room > 0
    ensures Collect(ws, room) == Collect(ws[1..], room)
  {
  }

  /** One turn of the loop: the score read, if any, and the next position. */
  method ReadOne(ws: seq<Word>, i: nat, ghost room: nat) returns (score: Option<nat>, next: nat)
    requires i < |ws| && room > 0
    ensures i < next <= |ws|
    ensures Collect(ws[i..], room) ==
      if score.Some? then [score.value] + Collect(ws[next..], room - 1) else Collect(ws[next..], room)
  {
    hide Parse, Collect;
    var parsed := ParseWordsAt(ws, i);
    if parsed.Some? {
      CollectParsed(ws[i..], parsed.value, room);
      next := i + parsed.value.consumed;
      assert ws[i..][parsed.value.consumed..] == ws[next..];
      return Some(parsed.value.value), next;
    }
    if ws[i].Figure? {
      var following := ParseWordsAt(ws, i + 1);
      assert ws[i..] == [Figure(ws[i].digits)] + ws[i + 1..];
      CollectFigure(ws[i].digits, ws[i + 1..], following, room);
      if following.Some? && following.value.value == ws[i].digits {
        next := i + 1 + following.value.consumed;
        assert ws[i + 1..][following.value.consumed..] == ws[next..];
        return Some(ws[i].digits), next;
      }
      return None, i + 1;
    }
    CollectSkipped(ws[i..], room);
    assert ws[i..][1..] == ws[i + 1..];
    return None, i + 1;
  }

  method ExtractWordScores(tokens: seq<string>, expected: nat) returns (scores: seq<nat>)
    ensures scores == ReadColumn(LexAll(tokens), expected)
  {
    scores := CollectScores(LexAll(tokens), expected + 2);
    if |scores| == expected + 1 {
      scores := scores[..expected];
    }
    if expected != 0 && |scores| > expected {
      scores := scores[..expected];
    }
  }

  method CollectScores(ws: seq<Word>, room: nat) returns (scores: seq<nat>)
    ensures scores == Collect(ws, room)
  {
    hide Parse, Collect;
    scores := [];
    var i := 0;
    while i < |ws| && |scores| < room
      invariant i <= |ws| && |scores| <= room
      invariant Collect(ws, room) == scores + Collect(ws[i..], room - |scores|)
      decreases |ws| - i
    {
      var score, next := ReadOne(ws, i, room - |scores|);
      if score.Some? {
        scores := scores + [score.value];
      }
      i := next;
    }
    CollectStops(ws[i..], room - |scores|);
  }

  // Columns as they are printed.

  /** A token that is no part of a numeral: digits, or a word the tables do not know. */
  predicate IsNoise(token: string) {
    AllDigits(token) || IsUnknown(token)
  }

  /**
   One line: an optional figure, the score in words, with or without "and", and whatever names and
   figures stand behind it.
   */
  datatype Entry = Entry(figure: Option<nat>, score: nat, joined: bool, after: seq<string>)

  function NoiseWord(token: string): Word {
    if AllDigits(token) then Figure(DigitsValue(token)) else Other
  }

  function NoiseWords(tokens: seq<string>): seq<Word> {
    seq(|tokens|, i requires 0 <= i < |tokens| => NoiseWord(tokens[i]))
  }

  function FigureWords(e: Entry): seq<Word> {
    if e.figure.Some? then [Figure(e.figure.value)] else []
  }

  function EntryWords(e: Entry): seq<Word>
    requires e.score < LIMIT
  {
    FigureWords(e) + Numeral(e.score, e.joined) + NoiseWords(e.after)
  }

  predicate InRange(es: seq<Entry>) {
    forall i :: 0 <= i < |es| ==> es[i].score < LIMIT && forall j :: 0 <= j < |es[i].after| ==> IsNoise(es[i].after[j])
  }

  function ColumnWords(es: seq<Entry>): seq<Word>
    requires InRange(es)
  {
    if es == [] then [] else EntryWords(es[0]) + ColumnWords(es[1..])
  }

  /** What follows the numeral of the first line. */
  function Rest(es: seq<Entry>): seq<Word>
    requires es != [] && InRange(es)
  {
    NoiseWords(es[0].after) + ColumnWords(es[1..])
  }

  lemma {:induction false} NoiseIsIgnored(tokens: seq<string>, ws: seq<Word>, room: nat)
    ensures Collect(NoiseWords(tokens) + ws, room) == Collect(ws, room)
    decreases |tokens|
  {
    hide Collect, DigitsValue, AllDigits;
    if tokens == [] {
      assert NoiseWords(tokens) + ws == ws;
    } else {
      var w, tail := NoiseWord(tokens[0]), NoiseWords(tokens[1..]) + ws;
      assert NoiseWords(tokens) + ws == [w] + tail;
      NoiseIsIgnored(tokens[1..], ws, room);
      if w.Figure? {
        FiguresAreIgnored(w.digits, tail, room);
      } else {
        UnknownsAreIgnored(tail, room);
      }
    }
  }

  function Scores(es: seq<Entry>): seq<nat> {
    seq(|es|, i requires 0 <= i < |es| => es[i].score)
  }

  /**
   Line `i` ends where line `i + 1` begins: something stands between the two numerals, or they cannot
   run together.
   */
  predicate Separated(es: seq<Entry>, i: nat)
    requires i + 1 < |es|
  {
    es[i].after != [] || es[i + 1].figure.Some? || EndsClearly(es[i].score, es[i + 1].score)
  }

  ghost predicate AllSeparated(es: seq<Entry>) {
    forall i :: 0 <= i < |es| - 1 ==> Separated(es, i)
  }

  lemma NoiseBreaks(n: nat, rest: seq<Word>)
    requires rest != [] && (rest[0].Figure? || rest[0] == Other)
    ensures StopsBefore(n, rest)
  {
  }

  lemma {:induction false} StopsBeforeRest(es: seq<Entry>)
    requires es != [] && InRange(es)
    ensures StopsBefore(es[0].score, Rest(es)) <==> |es| == 1 || Separated(es, 0)
  {
    hide Numeral, EndsClearly, Breaks, DigitsValue, AllDigits;
    if es[0].after != [] {
      assert Rest(es)[0] == NoiseWord(es[0].after[0]);
      NoiseBreaks(es[0].score, Rest(es));
    } else if |es| > 1 {
      assert Rest(es) == ColumnWords(es[1..]);
      StopsBeforeLine(es[0].score, es[1..]);
    }
  }

  lemma StopsBeforeLine(n: nat, es: seq<Entry>)
    requires n < LIMIT && es != [] && InRange(es)
    ensures StopsBefore(n, ColumnWords(es)) <==> es[0].figure.Some? || EndsClearly(n, es[0].score)
  {
    hide Numeral, EndsClearly, Breaks, DigitsValue, AllDigits;
    var e := es[0];
    ColumnSplit(es);
    if e.figure.Some? {
      assert ColumnWords(es)[0] == Figure(e.figure.value);
      NoiseBreaks(n, ColumnWords(es));
    } else {
      assert ColumnWords(es) == Numeral(e.score, e.joined) + Rest(es);
      StopsBeforeNumeral(n, e.score, e.joined, Rest(es));
    }
  }

  /** What the reader makes of a line, once the parser's answer on its words is known. */
  lemma CollectLine(e: Entry, words: seq<Word>, room: nat, p: Parsed)
    requires room > 0 && Parse(words) == Some(p)
    ensures Collect(FigureWords(e) + words, room) == [p.value] + Collect(words[p.consumed..], room - 1)
  {
    hide Parse;
    CollectParsed(words, p, room);
    if e.figure.Some? {
      FiguresAreIgnored(e.figure.value, words, room);
    } else {
      assert [] + words == words;
    }
  }

  lemma ColumnSplit(es: seq<Entry>)
    requires es != [] && InRange(es)
    ensures ColumnWords(es) == FigureWords(es[0]) + (Numeral(es[0].score, es[0].joined) + Rest(es))
  {
    hide Numeral, NoiseWords, FigureWords;
    Regroup(FigureWords(es[0]), Numeral(es[0].score, es[0].joined), NoiseWords(es[0].after), ColumnWords(es[1..]));
  }

  lemma Regroup(a: seq<Word>, b: seq<Word>, c: seq<Word>, d: seq<Word>)
    ensures (a + b + c) + d == a + (b + (c + d))
  {
  }

  /** A line that ends where the next one begins is read as its score. */
  lemma {:induction false} CollectSeparated(es: seq<Entry>, room: nat)
    requires es != [] && InRange(es) && room > 0 && (|es| == 1 || Separated(es, 0))
    ensures Collect(ColumnWords(es), room) == [es[0].score] + Collect(ColumnWords(es[1..]), room - 1)
  {
    hide Parse, Numeral, Collect, Separated, StopsBefore, Rest, ColumnWords;
    var n, joined, rest := es[0].score, es[0].joined, Rest(es);
    StopsBeforeRest(es);
    ParseInvertsNumeral(n, joined, rest);
    ColumnSplit(es);
    CollectLine(es[0], Numeral(n, joined) + rest, room, Parsed(n, |Numeral(n, joined)|));
    assert (Numeral(n, joined) + rest)[|Numeral(n, joined)|..] == rest;
    CollectRest(es, room - 1);
  }

  lemma CollectRest(es: seq<Entry>, room: nat)
    requires es != [] && InRange(es)
    ensures Collect(Rest(es), room) == Collect(ColumnWords(es[1..]), room)
  {
    hide Collect, ColumnWords, NoiseWords;
    NoiseIsIgnored(es[0].after, ColumnWords(es[1..]), room);
  }

  /** Separated lines are read back one by one. */
  lemma {:induction false} CollectReadsBack(es: seq<Entry>, room: nat)
    requires InRange(es) && AllSeparated(es)
    ensures Collect(ColumnWords(es), room) == if |es| <= room then Scores(es) else Scores(es)[..room]
    decreases |es|
  {
    hide Collect, ColumnWords, Separated, Scores;
    if es == [] || room == 0 {
      NothingToRead(es, room);
    } else {
      var tail := es[1..];
      assert |es| > 1 ==> Separated(es, 0);
      CollectSeparated(es, room);
      TailSeparated(es, |es| - 1);
      CollectReadsBack(tail, room - 1);
      ScoresSplit(es, room);
    }
  }

  lemma NothingToRead(es: seq<Entry>, room: nat)
    requires InRange(es) && (es == [] || room == 0)
    ensures Collect(ColumnWords(es), room) == [] && |Scores(es)| == |es|
  {
    CollectStops(ColumnWords(es), room);
  }

  lemma ScoresSplit(es: seq<Entry>, room: nat)
    requires es != [] && room > 0
    ensures |Scores(es)| == |es| && |Scores(es[1..])| == |es| - 1
    ensures Scores(es) == [es[0].score] + Scores(es[1..])
    ensures room <= |es| ==> Scores(es)[..room] == [es[0].score] + Scores(es[1..])[..room - 1]
  {
  }

  lemma TailSeparated(es: seq<Entry>, n: nat)
    requires es != [] && n < |es| && forall i :: 0 <= i < n ==> Separated(es, i)
    ensures forall i :: 0 <= i < n - 1 ==> Separated(es[1..], i)
  {
    forall i | 0 <= i < n - 1 ensures Separated(es[1..], i) {
      assert Separated(es, i + 1);
    }
  }

  /** A line that runs into the next one is read as a larger number. */
  lemma {:induction false} CollectGoesWrong(es: seq<Entry>, room: nat, bad: nat)
    requires InRange(es) && bad + 1 < |es| && bad < room && !Separated(es, bad)
    requires forall i :: 0 <= i < bad ==> Separated(es, i)
    ensures var r := Collect(ColumnWords(es), room);
      |r| > bad && r[bad] > es[bad].score
    decreases bad
  {
    hide Parse, Numeral, EndsClearly;
    if bad == 0 {
      var words := Numeral(es[0].score, es[0].joined) + Rest(es);
      RunsOn(es);
      ColumnSplit(es);
      CollectLine(es[0], words, room, Parse(words).value);
    } else {
      assert Separated(es, 0);
      CollectSeparated(es, room);
      TailSeparated(es, bad);
      CollectGoesWrong(es[1..], room - 1, bad - 1);
    }
  }

  lemma RunsOn(es: seq<Entry>)
    requires InRange(es) && |es| > 1 && !Separated(es, 0)
    ensures var p := Parse(Numeral(es[0].score, es[0].joined) + Rest(es));
      p.Some? && p.value.value > es[0].score
  {
    hide Parse, Numeral, StopsBefore;
    var e, rest := es[1], Rest(es);
    StopsBeforeRest(es);
    NumeralStart(e.score, e.joined);
    ColumnSplit(es[1..]);
    assert rest == ColumnWords(es[1..]);
    assert rest[0] == Numeral(e.score, e.joined)[0];
    ParseRunsOn(es[0].score, es[0].joined, rest);
  }

  /**
   Column round trip: when no line can run into the next, a printed column comes back exactly, up to
   the number of scores expected; one extra line, the total, is dropped. A figure in front of a
   line always parts it from the one before, even when the figure itself is wrong.
   */
  lemma {:induction false} ColumnRoundTrip(es: seq<Entry>, expected: nat)
    requires InRange(es) && AllSeparated(es)
    ensures var r := ReadColumn(LexAll(ColumnTokens(es)), expected);
      && r == Trimmed(if |es| <= expected + 2 then Scores(es) else Scores(es)[..expected + 2], expected)
      && (|es| <= expected ==> r == Scores(es))
      && (expected > 0 && |es| > expected ==> r == Scores(es)[..expected])
      && (expected == 0 ==> r == if |es| == 1 then [] else if |es| <= 2 then Scores(es) else Scores(es)[..2])
  {
    hide Parse, Lex, Token, Numeral;
    TokensReadAsWords(es);
    CollectReadsBack(es, expected + 2);
  }

  function WordTokens(ws: seq<Word>): seq<string> {
    seq(|ws|, i requires 0 <= i < |ws| => Token(ws[i]))
  }

  /** The tokens of a printed column. */
  function ColumnTokens(es: seq<Entry>): seq<string>
    requires InRange(es)
  {
    if es == [] then []
    else WordTokens(FigureWords(es[0]) + Numeral(es[0].score, es[0].joined)) + es[0].after + ColumnTokens(es[1..])
  }

  lemma LexJoined(a: seq<string>, b: seq<string>)
    ensures LexAll(a + b) == LexAll(a) + LexAll(b)
  {
    hide Lex;
  }

  lemma NumeralReadsAsWords(e: Entry)
    requires e.score < LIMIT
    ensures var ws := FigureWords(e) + Numeral(e.score, e.joined); LexAll(WordTokens(ws)) == ws
  {
    hide Numeral, Lex, Token;
    var ws := FigureWords(e) + Numeral(e.score, e.joined);
    NumeralWords(e.score, e.joined);
    forall i | 0 <= i < |ws| ensures Lex(Token(ws[i])) == ws[i] {
      assert ws[i] in ws;
      LexToken(ws[i]);
    }
  }

  lemma NoiseReadsAsNoise(tokens: seq<string>)
    requires forall i :: 0 <= i < |tokens| ==> IsNoise(tokens[i])
    ensures LexAll(tokens) == NoiseWords(tokens)
  {
    forall i | 0 <= i < |tokens| ensures Lex(tokens[i]) == NoiseWord(tokens[i]) {
      LexNoise(tokens[i]);
    }
  }

  lemma LexNoise(token: string)
    requires IsNoise(token)
    ensures Lex(token) == NoiseWord(token)
  {
    hide WordOf, Alias, Letters, AllDigits;
    if !AllDigits(token) {
      LexUnknown(token);
    }
  }

  /** The round trip on text: the tokens of a column are read as the words they were printed from. */
  lemma {:induction false} TokensReadAsWords(es: seq<Entry>)
    requires InRange(es)
    ensures LexAll(ColumnTokens(es)) == ColumnWords(es)
    decreases |es|
  {
    hide Numeral, Lex, WordTokens, FigureWords, NoiseWords;
    if es != [] {
      var e := es[0];
      var line := WordTokens(FigureWords(e) + Numeral(e.score, e.joined));
      NumeralReadsAsWords(e);
      NoiseReadsAsNoise(e.after);
      TokensReadAsWords(es[1..]);
      LexJoined(line, e.after);
      LexJoined(line + e.after, ColumnTokens(es[1..]));
    }
  }

  /** And only then: with as many scores expected as there are lines, separation is exactly what it takes. */
  lemma {:induction false} ColumnReadsBackExactly(es: seq<Entry>, expected: nat)
    requires InRange(es) && |es| <= expected
    ensures ReadColumn(LexAll(ColumnTokens(es)), expected) == Scores(es) <==> AllSeparated(es)
  {
    hide Parse, Numeral, EndsClearly, Lex, Token, ColumnWords;
    TokensReadAsWords(es);
    if AllSeparated(es) {
      ColumnRoundTrip(es, expected);
    } else {
      ColumnGoesWrong(es, expected);
    }
  }

  lemma {:induction false} ColumnGoesWrong(es: seq<Entry>, expected: nat)
    requires InRange(es) && |es| <= expected && !AllSeparated(es)
    ensures ReadColumn(ColumnWords(es), expected) != Scores(es)
  {
    hide Parse, Numeral, EndsClearly, Collect, ColumnWords;
    var bad := FirstJoined(es, 0);
    CollectGoesWrong(es, expected + 2, bad);
    assert Scores(es)[bad] == es[bad].score;
  }

  lemma {:induction false} FirstJoined(es: seq<Entry>, from: nat) returns (bad: nat)
    requires from + 1 < |es|
    requires exists i :: from <= i < |es| - 1 && !Separated(es, i)
    requires forall i :: 0 <= i < from ==> Separated(es, i)
    ensures bad + 1 < |es| && !Separated(es, bad) && forall i :: 0 <= i < bad ==> Separated(es, i)
    decreases |es| - from
  {
    if !Separated(es, from) {
      bad := from;
    } else {
      bad := FirstJoined(es, from + 1);
    }
  }

  /** Lines that are parted from the ones after them are read first, whatever follows. */
  lemma {:induction false} CollectPrefix(es: seq<Entry>, room: nat, n: nat)
    requires InRange(es) && n < |es| && n <= room && forall i :: 0 <= i < n ==> Separated(es, i)
    ensures n <= |Collect(ColumnWords(es), room)|
    ensures Collect(ColumnWords(es), room)[..n] == Scores(es)[..n]
    decreases n
  {
    hide Parse, Numeral, EndsClearly, Collect;
    if n > 0 {
      assert Separated(es, 0);
      CollectSeparated(es, room);
      TailSeparated(es, n);
      CollectPrefix(es[1..], room - 1, n - 1);
      assert Scores(es)[..n] == [es[0].score] + Scores(es[1..])[..n - 1];
    }
  }

  /**
   A column with more lines than scores expected, such as one with its total at the foot: the
   expected scores are read back exactly when each of their lines is parted from the next.
   */
  lemma ColumnWithTotalReadsBackExactly(es: seq<Entry>, expected: nat)
    requires InRange(es) && 0 < expected < |es|
    ensures ReadColumn(LexAll(ColumnTokens(es)), expected) == Scores(es)[..expected]
       <==> forall i :: 0 <= i < expected ==> Separated(es, i)
  {
    hide ReadColumn, Lex, ColumnWords, ColumnTokens, Separated, InRange;
    TokensReadAsWords(es);
    if forall i :: 0 <= i < expected ==> Separated(es, i) {
      FirstLinesRead(es, expected);
    } else {
      FirstLinesMisread(es, expected);
    }
  }

  lemma FirstLinesRead(es: seq<Entry>, expected: nat)
    requires InRange(es) && 0 < expected < |es| && forall i :: 0 <= i < expected ==> Separated(es, i)
    ensures ReadColumn(ColumnWords(es), expected) == Scores(es)[..expected]
  {
    hide Collect, ColumnWords, Separated, Trimmed, InRange;
    TrimmedExactly(Collect(ColumnWords(es), expected + 2), expected);
    CollectPrefix(es, expected + 2, expected);
  }

  lemma FirstLinesMisread(es: seq<Entry>, expected: nat)
    requires InRange(es) && 0 < expected < |es| && exists i :: 0 <= i < expected && !Separated(es, i)
    ensures ReadColumn(ColumnWords(es), expected) != Scores(es)[..expected]
  {
    hide Collect, ColumnWords, Separated, Trimmed, InRange;
    var scores := Collect(ColumnWords(es), expected + 2);
    TrimmedExactly(scores, expected);
    var bad := FirstJoined(es, 0);
    assert bad < expected;
    CollectGoesWrong(es, expected + 2, bad);
    assert Scores(es)[..expected][bad] == es[bad].score;
    assert bad < |Trimmed(scores, expected)| ==> Trimmed(scores, expected)[bad] == scores[bad];
  }

  /** With some scores expected, that many are kept, from the front. */
  lemma TrimmedExactly(scores: seq<nat>, expected: nat)
    requires expected > 0
    ensures Trimmed(scores, expected) == if |scores| <= expected then scores else scores[..expected]
  {
  }

  /** With a figure on every line after the first, every column comes back. */
  lemma FiguresSeparate(es: seq<Entry>)
    requires forall i :: 1 <= i < |es| ==> es[i].figure.Some?
    ensures AllSeparated(es)
  {
  }

  /** Without figures, scores that are zero or do not end in the digit zero are enough. */
  lemma NonZeroLastDigitsSeparate(es: seq<Entry>)
    requires forall i :: 0 <= i < |es| ==> es[i].score == 0 || es[i].score % 10 != 0
    ensures AllSeparated(es)
  {
    hide EndsClearly;
    forall i | 0 <= i < |es| - 1 ensures Separated(es, i) {
      LastDigitEndsClearly(es[i].score, es[i + 1].score);
    }
  }

  lemma LastDigit(x: nat, d: nat)
    requires d < 10
    ensures (10 * x + d) % 10 == d
  {
  }

  lemma LastDigitEndsClearly(n: nat, m: nat)
    requires n == 0 || n % 10 != 0
    ensures EndsClearly(n, m)
  {
    hide StartsWithTens;
    var q, group := n / 1000, n % 1000;
    var d := group % 10;
    LastDigit(100 * q + group / 10, d);
    assert n == 10 * (100 * q + group / 10) + d;
    LastDigit(10 * (group / 100), 0);
    assert group % 100 == 0 ==> group == 10 * (10 * (group / 100)) + 0;
  }
}
