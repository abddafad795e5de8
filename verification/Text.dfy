/** Library operations on text that several components use: splitting and decimal numerals. */
module Text {
  import opened Wrappers

  // ---- splitting ---------------------------------------------------------------------------

  /** str::split: one more piece than there are separators. */
  function Split(text: string, sep: char): (pieces: seq<string>)
    ensures pieces != []
  {
    if text == "" then [""]
    else
      var rest := Split(text[1..], sep);
      if text[0] == sep then [""] + rest
      else [[text[0]] + rest[0]] + rest[1..]
  }

  /** Pieces with a separator in front of each but the first. */
  function Join(pieces: seq<string>, sep: char): string {
    if pieces == [] then ""
    else if |pieces| == 1 then pieces[0]
    else pieces[0] + [sep] + Join(pieces[1..], sep)
  }

  lemma {:induction false} SplitPlain(piece: string, sep: char)
    requires sep !in piece
    ensures Split(piece, sep) == [piece]
  {
    if piece != "" {
      SplitPlain(piece[1..], sep);
      assert [piece[0]] + piece[1..] == piece;
    }
  }

  lemma {:induction false} SplitHead(piece: string, rest: string, sep: char)
    requires sep !in piece
    ensures Split(piece + [sep] + rest, sep) == [piece] + Split(rest, sep)
  {
    var text := piece + [sep] + rest;
    if piece == "" {
      assert text[1..] == rest;
    } else {
      SplitHead(piece[1..], rest, sep);
      assert text[1..] == piece[1..] + [sep] + rest;
      assert [text[0]] + piece[1..] == piece;
    }
  }

  /** Splitting what was joined gives the pieces back. */
  lemma {:induction false} SplitJoined(pieces: seq<string>, sep: char)
    requires pieces != [] && forall p <- pieces :: sep !in p
    ensures Split(Join(pieces, sep), sep) == pieces
  {
    if |pieces| == 1 {
      SplitPlain(pieces[0], sep);
    } else {
      SplitJoined(pieces[1..], sep);
      SplitHead(pieces[0], Join(pieces[1..], sep), sep);
    }
  }

  /** str::split_once. */
  function SplitOnce(text: string, sep: char): Option<(string, string)> {
    if text == "" then None
    else if text[0] == sep then Some(("", text[1..]))
    else
      var rest := SplitOnce(text[1..], sep);
      if rest.None? then None else Some(([text[0]] + rest.value.0, rest.value.1))
  }

  lemma {:induction false} SplitOnceAbsent(text: string, sep: char)
    ensures SplitOnce(text, sep).None? <==> sep !in text
  {
    if text != "" {
      SplitOnceAbsent(text[1..], sep);
      assert text == [text[0]] + text[1..];
    }
  }

  lemma {:induction false} SplitOnceFirst(head: string, tail: string, sep: char)
    requires sep !in head
    ensures SplitOnce(head + [sep] + tail, sep) == Some((head, tail))
  {
    var text := head + [sep] + tail;
    if head == "" {
      assert text[1..] == tail;
    } else {
      SplitOnceFirst(head[1..], tail, sep);
      assert text[1..] == head[1..] + [sep] + tail;
      assert [text[0]] + head[1..] == head;
    }
  }

  lemma {:induction false} SplitOnceJoins(text: string, sep: char)
    requires SplitOnce(text, sep).Some?
    ensures var (head, tail) := SplitOnce(text, sep).value; text == head + [sep] + tail && sep !in head
  {
    if text[0] != sep {
      SplitOnceJoins(text[1..], sep);
      var (head, tail) := SplitOnce(text[1..], sep).value;
      assert text == [text[0]] + text[1..];
      assert [text[0]] + (head + [sep] + tail) == ([text[0]] + head) + [sep] + tail;
    } else {
      assert text == "" + [sep] + text[1..];
    }
  }

  // ---- decimal numerals --------------------------------------------------------------------

  predicate IsDigit(c: char) { '0' <= c <= '9' }
  predicate AllDigits(text: string) { forall c <- text :: IsDigit(c) }

  function Digit(n: nat): char
    requires n < 10
  {
    '0' + n as char
  }

  function DigitValue(c: char): (n: nat)
    requires IsDigit(c)
    ensures n < 10 && Digit(n) == c
  {
    (c - '0') as nat
  }

  function Value(text: string): nat
    requires AllDigits(text)
  {
    if text == "" then 0 else Value(text[..|text| - 1]) * 10 + DigitValue(text[|text| - 1])
  }

  /** The usual numeral, without leading zeros. */
  function Decimal(n: nat): string {
    if n < 10 then [Digit(n)] else Decimal(n / 10) + [Digit(n % 10)]
  }

  lemma ValueAppends(text: string, n: nat)
    requires AllDigits(text) && n < 10
    ensures AllDigits(text + [Digit(n)]) && Value(text + [Digit(n)]) == Value(text) * 10 + n
  {
    assert (text + [Digit(n)])[..|text|] == text;
  }

  /** Reading a numeral gives the number it was written for. */
  lemma {:induction false} DecimalReads(n: nat)
    ensures Decimal(n) != "" && AllDigits(Decimal(n)) && Value(Decimal(n)) == n
  {
    if n < 10 {
      ValueAppends("", n);
    } else {
      DecimalReads(n / 10);
      ValueAppends(Decimal(n / 10), n % 10);
    }
  }

  function Zeros(n: nat): string { seq(n, i => '0') }

  lemma {:induction false} LeadingZeros(zeros: nat, n: nat)
    ensures AllDigits(Zeros(zeros) + Decimal(n)) && Value(Zeros(zeros) + Decimal(n)) == n
    decreases n
  {
    DecimalReads(n);
    if n < 10 {
      ZerosAreNothing(zeros);
      ValueAppends(Zeros(zeros), n);
    } else {
      LeadingZeros(zeros, n / 10);
      ValueAppends(Zeros(zeros) + Decimal(n / 10), n % 10);
      assert Zeros(zeros) + Decimal(n) == Zeros(zeros) + Decimal(n / 10) + [Digit(n % 10)];
    }
  }

  lemma {:induction false} ZerosAreNothing(n: nat)
    ensures AllDigits(Zeros(n)) && Value(Zeros(n)) == 0
  {
    if n > 0 {
      ZerosAreNothing(n - 1);
      ValueAppends(Zeros(n - 1), 0);
      assert Zeros(n) == Zeros(n - 1) + [Digit(0)];
    }
  }

  /** Whatever consists of digits is the numeral of its value with zeros in front. */
  lemma {:induction false} DigitsAreNumeral(text: string) returns (zeros: nat)
    requires text != "" && AllDigits(text)
    ensures text == Zeros(zeros) + Decimal(Value(text))
  {
    var init, c := text[..|text| - 1], text[|text| - 1];
    assert text == init + [c] && c in text;
    if init == "" {
      zeros := 0;
      assert Zeros(0) + Decimal(Value(text)) == Decimal(Value(text)) == [c];
    } else {
      zeros := DigitsAreNumeral(init);
      if Value(init) == 0 {
        assert Zeros(zeros) + [Digit(0)] == Zeros(zeros + 1);
        zeros := zeros + 1;
      } else {
        assert Value(text) / 10 == Value(init) && Value(text) % 10 == DigitValue(c);
        assert Zeros(zeros) + (Decimal(Value(init)) + [c]) == Zeros(zeros) + Decimal(Value(init)) + [c];
      }
    }
  }
}
