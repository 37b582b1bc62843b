/** Text rendering used by the state log: the `%d`, `%Nd`, `%Ns` and `%0Nd`
    conversions of printf, and the concatenation of fixed-width cells. */
module Format {

  predicate IsDigit(ch: char) { '0' <= ch <= '9' }

  predicate AllDigits(s: string) { forall i :: 0 <= i < |s| ==> IsDigit(s[i]) }

  /** A string printf's `%d` can produce: digits, optionally after one minus sign. */
  predicate IsNumeral(s: string)
  {
    |s| >= 1 && (AllDigits(s) || (s[0] == '-' && |s| >= 2 && AllDigits(s[1..])))
  }

  /** No position of `s` holds `ch`. */
  predicate Avoids(s: string, ch: char) { forall i :: 0 <= i < |s| ==> s[i] != ch }

  function DigitValue(ch: char): (d: nat)
    requires IsDigit(ch)
    ensures d < 10
  {
    ch as int - '0' as int
  }

  function DigitChar(d: nat): (ch: char)
    requires d < 10
    ensures IsDigit(ch) && DigitValue(ch) == d
  {
    (d + '0' as int) as char
  }

  /** Decimal digits of `n`, most significant first, without leading zeros. */
  function NatToString(n: nat): (s: string)
    ensures |s| >= 1
  {
    if n < 10 then [DigitChar(n)] else NatToString(n / 10) + [DigitChar(n % 10)]
  }

  /** printf's `%d` of `n`. */
  function IntToString(n: int): (s: string)
    ensures |s| >= 1
  {
    if n < 0 then "-" + NatToString(-n) else NatToString(n)
  }

  /** The digits of `n` are digits; there is one of them exactly when `n < 10`,
      and only zero is written with a leading `0`. */
  lemma {:induction false} NatToStringDigits(n: nat)
    ensures AllDigits(NatToString(n))
    ensures |NatToString(n)| == 1 <==> n < 10
    ensures NatToString(n)[0] == '0' ==> n == 0
  {
    if n >= 10 {
      NatToStringDigits(n / 10);
    }
  }

  /** `%d` writes a minus sign exactly for negative numbers, then digits. */
  lemma IntToStringShape(n: int)
    ensures IsNumeral(IntToString(n))
    ensures IntToString(n)[0] == '-' <==> n < 0
    ensures IsDigit(IntToString(n)[|IntToString(n)| - 1])
  {
    if n < 0 {
      NatToStringDigits(-n);
      assert IntToString(n)[1..] == NatToString(-n);
    } else {
      NatToStringDigits(n);
    }
  }

  /** Value of a string of decimal digits. */
  function ParseNat(s: string): nat
    requires AllDigits(s)
  {
    if s == [] then 0 else ParseNat(s[..|s| - 1]) * 10 + DigitValue(s[|s| - 1])
  }

  /** Value of a `%d` numeral. */
  function ParseInt(s: string): int
    requires IsNumeral(s)
  {
    if s[0] == '-' then -(ParseNat(s[1..]) as int) else ParseNat(s)
  }

  lemma {:induction false} ParseNatRoundTrip(n: nat)
    ensures AllDigits(NatToString(n)) && ParseNat(NatToString(n)) == n
  {
    NatToStringDigits(n);
    if n >= 10 {
      var s := NatToString(n);
      assert s[..|s| - 1] == NatToString(n / 10);
      ParseNatRoundTrip(n / 10);
    }
  }

  /** Reading back what `%d` printed gives the number that was printed. */
  lemma IntRoundTrip(n: int)
    ensures IsNumeral(IntToString(n)) && ParseInt(IntToString(n)) == n
  {
    IntToStringShape(n);
    if n < 0 {
      assert IntToString(n)[1..] == NatToString(-n);
      ParseNatRoundTrip(-n);
    } else {
      ParseNatRoundTrip(n);
    }
  }

  /** `s` right-aligned in a field of width `w`, filled on the left with `fill`;
      like printf, a value wider than the field is not cut. */
  function PadLeft(s: string, w: nat, fill: char): (r: string)
    decreases w - |s|
    ensures |r| == if |s| >= w then |s| else w
  {
    if |s| >= w then s else PadLeft([fill] + s, w, fill)
  }

  /** What a padded field holds: `fill` in front, then `s` unchanged. */
  lemma {:induction false} PadLeftContent(s: string, w: nat, fill: char)
    decreases w - |s|
    ensures var r := PadLeft(s, w, fill);
      r[|r| - |s|..] == s && forall i :: 0 <= i < |r| - |s| ==> r[i] == fill
  {
    if |s| < w {
      var r := PadLeft(s, w, fill);
      PadLeftContent([fill] + s, w, fill);
      assert r[|r| - |s| - 1..] == [fill] + s;
      assert r[|r| - |s|..] == ([fill] + s)[1..];
      assert r[|r| - |s| - 1] == fill;
    }
  }

  /** printf's `%wd`. */
  function Field(n: int, w: nat): string
  {
    PadLeft(IntToString(n), w, ' ')
  }

  /** `%wd` of `n` takes exactly `w` columns. */
  predicate Fits(n: int, w: nat) { |IntToString(n)| <= w }

  /** printf's `%0wd` for a non-negative `n`. */
  function ZeroPadded(n: nat, w: nat): string
  {
    PadLeft(IntToString(n), w, '0')
  }

  /** The cells written one after the other. */
  function Concat(parts: seq<string>): string
  {
    if parts == [] then [] else Concat(parts[..|parts| - 1]) + parts[|parts| - 1]
  }

  lemma ConcatSnoc(parts: seq<string>, k: nat)
    requires k < |parts|
    ensures Concat(parts[..k + 1]) == Concat(parts[..k]) + parts[k]
  {
    assert parts[..k + 1][..k] == parts[..k];
  }

  lemma {:induction false} ConcatAvoids(parts: seq<string>, ch: char)
    requires forall i :: 0 <= i < |parts| ==> Avoids(parts[i], ch)
    ensures Avoids(Concat(parts), ch)
  {
    if parts != [] {
      ConcatAvoids(parts[..|parts| - 1], ch);
    }
  }

  lemma {:induction false} ConcatLength(parts: seq<string>)
    requires forall i :: 0 <= i < |parts| ==> |parts[i]| == 4
    ensures |Concat(parts)| == 4 * |parts|
  {
    if parts != [] {
      ConcatLength(parts[..|parts| - 1]);
    }
  }

  /** Four-column cells lie side by side: cell `i` occupies columns `4 * i`
      up to `4 * i + 4`. */
  lemma {:induction false} ConcatCell(parts: seq<string>, i: nat)
    requires forall j :: 0 <= j < |parts| ==> |parts[j]| == 4
    requires i < |parts|
    ensures 4 * i + 4 <= |Concat(parts)|
    ensures Concat(parts)[4 * i..4 * i + 4] == parts[i]
  {
    var k := |parts| - 1;
    var init := parts[..k];
    ConcatLength(init);
    if i < k {
      ConcatCell(init, i);
      SliceOfFront(Concat(init), parts[k], 4 * i, 4 * i + 4);
    } else {
      SliceOfFront(Concat(init) + parts[k], [], 4 * i, 4 * i + 4);
    }
  }

  lemma SliceOfFront(a: string, b: string, lo: nat, hi: nat)
    requires lo <= hi <= |a|
    ensures (a + b)[lo..hi] == a[lo..hi]
  {
  }

  /** Every character of a padded `%d` field is a space, a minus sign or a digit. */
  lemma FieldChars(n: int, w: nat)
    ensures forall i :: 0 <= i < |Field(n, w)| ==>
      Field(n, w)[i] == ' ' || Field(n, w)[i] == '-' || IsDigit(Field(n, w)[i])
  {
    var s, r := IntToString(n), Field(n, w);
    IntToStringShape(n);
    PadLeftContent(s, w, ' ');
    forall i | 0 <= i < |r|
      ensures r[i] == ' ' || r[i] == '-' || IsDigit(r[i])
    {
      if i >= |r| - |s| {
        assert r[i] == r[|r| - |s|..][i - (|r| - |s|)];
      }
    }
  }

  lemma AppendAvoids(a: string, b: string, ch: char)
    requires Avoids(a, ch) && Avoids(b, ch)
    ensures Avoids(a + b, ch)
  {
  }

  /** The `w` characters at offset `i` of the middle part of `pre + mid + post`. */
  lemma SliceMiddle(pre: string, mid: string, post: string, at: nat, i: nat, w: nat)
    requires at == |pre| && i + w <= |mid|
    ensures (pre + mid + post)[at + i..at + i + w] == mid[i..i + w]
  {
    var whole := pre + mid + post;
    forall j | at + i <= j < at + i + w
      ensures whole[j] == mid[j - at]
    {
    }
    assert whole[at + i..at + i + w] == mid[i..i + w];
  }

  /** Offsets of cells in a line made of a status part `a`, a block `gs` of
      `n` four-column cells, a five-column field `w`, a block `ts` of `n`
      four-column cells and a final `nl`. */
  lemma LineLayout(line: string, a: string, gs: string, w: string, ts: string, nl: string, n: nat, g: nat)
    requires line == a + gs + w + ts + nl
    requires |a| == 10 && |gs| == 4 * n && |w| == 5 && |ts| == 4 * n && |nl| == 1 && g < n
    ensures |line| == 16 + 8 * n
    ensures line[10 + 4 * g..10 + 4 * g + 4] == gs[4 * g..4 * g + 4]
    ensures line[15 + 4 * n + 4 * g..15 + 4 * n + 4 * g + 4] == ts[4 * g..4 * g + 4]
  {
    assert 4 * g + 4 <= 4 * n;
    Regroup(a, gs, w, ts, nl);
    SliceMiddle(a, gs, w + ts + nl, 10, 4 * g, 4);
    SliceMiddle(a + gs + w, ts, nl, 15 + 4 * n, 4 * g, 4);
  }

  /** The columns of a line made of a 10-column prefix, `n` four-column
      cells, a 5-column field, `n` more four-column cells and a newline. */
  lemma CellColumns(line: string, a: string, left: seq<string>, w: string, right: seq<string>, n: nat, g: nat)
    requires forall j :: 0 <= j < |left| ==> |left[j]| == 4
    requires forall j :: 0 <= j < |right| ==> |right[j]| == 4
    requires line == a + Concat(left) + w + Concat(right) + "\n"
    requires |a| == 10 && |w| == 5 && |left| == n && |right| == n && g < n
    ensures |line| == 16 + 8 * n
    ensures line[10 + 4 * g..10 + 4 * g + 4] == left[g]
    ensures line[15 + 4 * n + 4 * g..15 + 4 * n + 4 * g + 4] == right[g]
  {
    ConcatCell(left, g);
    ConcatCell(right, g);
    ConcatLength(left);
    ConcatLength(right);
    LineLayout(line, a, Concat(left), w, Concat(right), "\n", n, g);
  }

  /** The columns of a line made of a prefix `pre` of `at` columns, four-column
      cells and a newline: cell `g` occupies the four columns from `lo = at + 4g`. */
  lemma BlockColumn(line: string, pre: string, cells: seq<string>, at: nat, g: nat, lo: nat)
    requires forall j :: 0 <= j < |cells| ==> |cells[j]| == 4
    requires line == pre + Concat(cells) + "\n"
    requires at == |pre| && g < |cells| && lo == at + 4 * g
    ensures lo + 4 <= |line|
    ensures line[lo..lo + 4] == cells[g]
  {
    ConcatCell(cells, g);
    SliceMiddle(pre, Concat(cells), "\n", at, 4 * g, 4);
  }

  /** `%02d` of a group number below 100 takes two columns. */
  lemma TwoDigitWidth(g: nat)
    requires g < 100
    ensures |ZeroPadded(g, 2)| == 2
  {
    if g >= 10 {
      assert NatToString(g) == NatToString(g / 10) + [DigitChar(g % 10)];
      NatToStringDigits(g / 10);
    }
  }

  /** The two groupings of five appended strings that the column lemmas use. */
  lemma Regroup(a: string, b: string, c: string, d: string, e: string)
    ensures a + b + c + d + e == a + b + (c + d + e)
    ensures a + b + c + d + e == (a + b + c) + d + e
  {
  }

  lemma AppendAssoc(a: string, b: string, c: string)
    ensures a + b + c == a + (b + c)
  {
  }
}
