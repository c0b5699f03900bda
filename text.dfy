/**
 * The JavaScript string built-ins the source relies on, over `seq<char>`:
 * `trim` (Trim), `split` with a one-character separator (Split), `join` (Join),
 * and the comma-separated label lists of the admin forms built from them.
 */
module Text {
  import opened Wrappers
  import Seqs

  /** ECMAScript WhiteSpace and LineTerminator code points (what `trim` and `\s` match). */
  predicate IsWhiteSpace(c: char) {
    || c == ' ' || c == '\t' || c == '\n' || c == '\r'
    || c == '\U{000B}' || c == '\U{000C}' || c == '\U{00A0}' || c == '\U{1680}'
    || ('\U{2000}' <= c <= '\U{200A}')
    || c == '\U{2028}' || c == '\U{2029}' || c == '\U{202F}' || c == '\U{205F}'
    || c == '\U{3000}' || c == '\U{FEFF}'
  }

  /** The regular-expression class `\d`. */
  predicate IsDigit(c: char) {
    '0' <= c <= '9'
  }

  /** How many decimal digits `s` starts with. */
  function LeadingDigits(s: string): (n: nat)
    ensures n <= |s|
    ensures forall k :: 0 <= k < n ==> IsDigit(s[k])
    ensures n < |s| ==> !IsDigit(s[n])
  {
    if s != [] && IsDigit(s[0]) then 1 + LeadingDigits(s[1..]) else 0
  }

  /** A digit run followed by a non-digit is exactly the leading digits. */
  lemma {:induction false} LeadingDigitsOf(digits: string, rest: string)
    requires forall k :: 0 <= k < |digits| ==> IsDigit(digits[k])
    requires rest != [] && !IsDigit(rest[0])
    ensures LeadingDigits(digits + rest) == |digits|
  {
    if digits != [] {
      assert (digits + rest)[1..] == digits[1..] + rest;
      LeadingDigitsOf(digits[1..], rest);
    }
  }

  /** A non-empty run of decimal digits. */
  predicate IsNumber(digits: string) {
    digits != [] && forall k :: 0 <= k < |digits| ==> IsDigit(digits[k])
  }

  /** The value of a run of decimal digits. */
  function DecimalValue(digits: string): (n: nat)
    requires forall k :: 0 <= k < |digits| ==> IsDigit(digits[k])
  {
    if digits == [] then 0
    else
      var last := digits[|digits| - 1];
      assert IsDigit(last);
      DecimalValue(digits[..|digits| - 1]) * 10 + (last as int - '0' as int)
  }

  /** The decimal text of a natural number, without leading zeros. */
  function Decimal(n: nat): (digits: string)
    ensures IsNumber(digits)
    ensures |digits| > 1 ==> digits[0] != '0'
  {
    if n < 10 then [(n + '0' as int) as char]
    else Decimal(n / 10) + [(n % 10 + '0' as int) as char]
  }

  /** Reading back the decimal text of `n` gives `n`. */
  lemma {:induction false} DecimalRoundTrip(n: nat)
    ensures DecimalValue(Decimal(n)) == n
  {
    if n >= 10 {
      var ds := Decimal(n);
      DecimalRoundTrip(n / 10);
      assert ds[..|ds| - 1] == Decimal(n / 10);
    }
  }

  /** What `parseInt` reads its digits from: the text after leading white space and an optional sign. */
  function NumberBody(text: string): (body: string)
    ensures |body| <= |text|
  {
    var t := TrimStart(text);
    if t != [] && (t[0] == '-' || t[0] == '+') then t[1..] else t
  }

  /**
   * `parseInt(text)` (no radix): skip leading white space, read an optional sign
   * and the longest run of decimal digits; None (NaN) when there are no digits.
   */
  function ParseInt(text: string): (n: Option<int>)
    ensures n.None? <==> LeadingDigits(NumberBody(text)) == 0
  {
    var t := TrimStart(text);
    ReadNumber(t != [] && t[0] == '-', NumberBody(text))
  }

  /** The longest run of digits that `body` starts with, negated if `negative`; None without digits. */
  function ReadNumber(negative: bool, body: string): (n: Option<int>)
    ensures n.None? <==> LeadingDigits(body) == 0
  {
    var d := LeadingDigits(body);
    if d == 0 then None
    else
      var digits := body[..d];
      assert forall k :: 0 <= k < |digits| ==> digits[k] == body[k];
      var magnitude := DecimalValue(digits);
      Some(if negative then -(magnitude as int) else magnitude as int)
  }

  /** A body made only of digits is read whole. */
  lemma ReadAllDigits(negative: bool, ds: string)
    requires IsNumber(ds)
    ensures ReadNumber(negative, ds) == Some(if negative then -(DecimalValue(ds) as int) else DecimalValue(ds) as int)
  {
    LeadingDigitsAll(ds);
    assert ds[..|ds|] == ds;
  }

  /** `parseInt` of a run of digits is its decimal value. */
  lemma ParseIntDigits(ds: string)
    requires IsNumber(ds)
    ensures ParseInt(ds) == Some(DecimalValue(ds) as int)
  {
    var d := ds[0];
    assert !IsWhiteSpace(d) && d != '-' && d != '+';
    assert TrimStart(ds) == ds;
    assert NumberBody(ds) == ds;
    ReadAllDigits(false, ds);
  }

  /** After a minus sign, `parseInt` reads its digits from the rest. */
  lemma NumberBodyAfterMinus(rest: string)
    ensures TrimStart(['-'] + rest) == ['-'] + rest
    ensures NumberBody(['-'] + rest) == rest
  {
    var m := ['-'] + rest;
    assert m[0] == '-' && m[1..] == rest;
  }

  /** `parseInt` of a minus sign and a run of digits is the negated decimal value. */
  lemma ParseIntNegatedDigits(ds: string)
    requires IsNumber(ds)
    ensures ParseInt("-" + ds) == Some(-(DecimalValue(ds) as int))
  {
    var m := "-" + ds;
    NumberBodyAfterMinus(ds);
    assert m == ['-'] + ds;
    assert TrimStart(m)[0] == '-';
    ReadAllDigits(true, ds);
  }

  /** `parseInt` reads back the decimal text of a natural number. */
  lemma {:induction false} ParseIntDecimal(n: nat)
    ensures ParseInt(Decimal(n)) == Some(n)
  {
    DecimalRoundTrip(n);
    ParseIntDigits(Decimal(n));
  }

  /** `parseInt` reads back the decimal text of a natural number after a minus sign. */
  lemma {:induction false} ParseIntNegativeDecimal(n: nat)
    ensures ParseInt("-" + Decimal(n)).Some? && ParseInt("-" + Decimal(n)).value == -(n as int)
  {
    DecimalRoundTrip(n);
    ParseIntNegatedDigits(Decimal(n));
  }

  /** An empty input and an input without digits read as NaN. */
  lemma ParseIntBlank(text: string)
    requires forall k :: 0 <= k < |text| ==> IsWhiteSpace(text[k])
    ensures ParseInt(text) == None
  {
  }

  /** A string made of digits is all leading digits. */
  lemma {:induction false} LeadingDigitsAll(digits: string)
    requires forall k :: 0 <= k < |digits| ==> IsDigit(digits[k])
    ensures LeadingDigits(digits) == |digits|
  {
    if digits != [] {
      LeadingDigitsAll(digits[1..]);
    }
  }

  /** `s.trimStart()`: a suffix of `s` that does not start with white space. */
  function TrimStart(s: string): (r: string)
    ensures |r| <= |s| && r == s[|s| - |r|..]
    ensures r == [] || !IsWhiteSpace(r[0])
    ensures forall k :: 0 <= k < |s| - |r| ==> IsWhiteSpace(s[k])
  {
    if s != [] && IsWhiteSpace(s[0]) then TrimStart(s[1..]) else s
  }

  /** `s.trimEnd()`: a prefix of `s` that does not end with white space. */
  function TrimEnd(s: string): (r: string)
    ensures |r| <= |s| && r == s[..|r|]
    ensures r == [] || !IsWhiteSpace(r[|r| - 1])
    ensures forall k :: |r| <= k < |s| ==> IsWhiteSpace(s[k])
  {
    if s != [] && IsWhiteSpace(s[|s| - 1]) then TrimEnd(s[..|s| - 1]) else s
  }

  /** Neither end of `s` is white space. */
  predicate Trimmed(s: string) {
    s == [] || (!IsWhiteSpace(s[0]) && !IsWhiteSpace(s[|s| - 1]))
  }

  /**
   * A suffix `t` of `s` after white space, and a prefix `r` of `t` before white
   * space, neither starting nor ending with white space: `r` is `s` trimmed.
   */
  lemma TrimIsSlice(s: string, t: string, r: string)
    requires |t| <= |s| && t == s[|s| - |t|..] && (t == [] || !IsWhiteSpace(t[0]))
    requires forall k :: 0 <= k < |s| - |t| ==> IsWhiteSpace(s[k])
    requires |r| <= |t| && r == t[..|r|] && (r == [] || !IsWhiteSpace(r[|r| - 1]))
    requires forall k :: |r| <= k < |t| ==> IsWhiteSpace(t[k])
    ensures Trimmed(r)
    ensures forall c :: c in r ==> c in s
    ensures Trimmed(s) ==> r == s
  {
    var i := |s| - |t|;
    assert r == s[i..i + |r|];
    if r != [] {
      assert r[0] == t[0];
    }
    if Trimmed(s) && s != [] {
      assert i == 0 && t == s;
      assert |r| == |t|;
    }
  }

  /** The same `r` is the middle of `s`: only white space lies before and after it. */
  lemma TrimIsMiddle(s: string, t: string, r: string)
    requires |t| <= |s| && t == s[|s| - |t|..]
    requires forall k :: 0 <= k < |s| - |t| ==> IsWhiteSpace(s[k])
    requires |r| <= |t| && r == t[..|r|]
    requires forall k :: |r| <= k < |t| ==> IsWhiteSpace(t[k])
    ensures MiddleSlice(s, r, |s| - |t|, |s| - |t| + |r|)
  {
    var i := |s| - |t|;
    var j := i + |r|;
    assert r == s[i..j];
    forall k | j <= k < |s| ensures IsWhiteSpace(s[k]) {
      assert s[k] == t[k - i];
    }
  }

  /** `s.trim()`. */
  function Trim(s: string): (r: string)
    ensures Trimmed(r)
    ensures forall c :: c in r ==> c in s
    ensures Trimmed(s) ==> r == s
  {
    TrimIsSlice(s, TrimStart(s), TrimEnd(TrimStart(s)));
    TrimEnd(TrimStart(s))
  }

  /** `r` is the slice `s[i..j]`, and `s` has only white space before `i` and from `j` on. */
  ghost predicate MiddleSlice(s: string, r: string, i: int, j: int) {
    && 0 <= i <= j <= |s| && r == s[i..j]
    && (forall k :: 0 <= k < i ==> IsWhiteSpace(s[k]))
    && (forall k :: j <= k < |s| ==> IsWhiteSpace(s[k]))
  }

  /**
   * `trim()` removes white space at the two ends and nothing else: the result
   * is the slice of `s` after its leading white space and before a trailing
   * run of white space.
   */
  lemma TrimKeepsMiddle(s: string)
    ensures exists i, j :: MiddleSlice(s, Trim(s), i, j)
  {
    var t := TrimStart(s);
    var r := TrimEnd(t);
    TrimIsMiddle(s, t, r);
    assert Trim(s) == r;
  }

  /** A string is blank (falsy after `trim()`) exactly when every character is white space. */
  lemma BlankIffAllWhiteSpace(s: string)
    ensures Trim(s) == "" <==> forall k :: 0 <= k < |s| ==> IsWhiteSpace(s[k])
  {
  }

  /** Leading white space does not survive `trim()`. */
  lemma TrimSkipsLeadingSpace(s: string)
    ensures Trim(" " + s) == Trim(s)
  {
    assert (" " + s)[1..] == s;
  }

  /** One leading space does not survive `trimStart()`. */
  lemma TrimStartSkipsSpace(s: string)
    ensures TrimStart(" " + s) == TrimStart(s)
  {
    assert (" " + s)[1..] == s;
  }

  /** Any run of white space before `s` does not survive `trimStart()`. */
  lemma {:induction false} TrimStartSkipsWhiteSpace(pad: string, s: string)
    requires forall k :: 0 <= k < |pad| ==> IsWhiteSpace(pad[k])
    ensures TrimStart(pad + s) == TrimStart(s)
  {
    if pad != [] {
      assert (pad + s)[0] == pad[0];
      assert (pad + s)[1..] == pad[1..] + s;
      TrimStartSkipsWhiteSpace(pad[1..], s);
    } else {
      assert pad + s == s;
    }
  }

  /** `trimStart()` leaves a trimmed string alone. */
  lemma TrimStartOfTrimmed(s: string)
    requires Trimmed(s)
    ensures TrimStart(s) == s
  {
  }

  /** `s.split(sep)`: the pieces between occurrences of `sep`; never empty. */
  function Split(s: string, sep: char): (pieces: seq<string>)
    ensures |pieces| >= 1
    ensures forall i :: 0 <= i < |pieces| ==> sep !in pieces[i]
  {
    if s == [] then [""]
    else
      var rest := Split(s[1..], sep);
      if s[0] == sep then [""] + rest
      else [[s[0]] + rest[0]] + rest[1..]
  }

  /** `pieces.join(glue)`; the empty list joins to "". */
  function Join(pieces: seq<string>, glue: string): string {
    if |pieces| == 0 then ""
    else if |pieces| == 1 then pieces[0]
    else pieces[0] + glue + Join(pieces[1..], glue)
  }

  /** Splitting and re-joining with the separator gives the original string back. */
  lemma {:induction false} JoinSplit(s: string, sep: char)
    ensures Join(Split(s, sep), [sep]) == s
  {
    if s != [] {
      var rest := Split(s[1..], sep);
      JoinSplit(s[1..], sep);
      if s[0] == sep {
        assert Split(s, sep) == [""] + rest;
        assert (([""] + rest)[1..]) == rest;
      } else {
        var ps := [[s[0]] + rest[0]] + rest[1..];
        assert Split(s, sep) == ps;
        if |rest| == 1 {
          assert rest == [rest[0]];
        } else {
          assert ps[1..] == rest[1..];
          assert Join(rest, [sep]) == rest[0] + [sep] + Join(rest[1..], [sep]);
        }
        assert s == [s[0]] + s[1..];
      }
    }
  }

  /** A string without the separator is a single piece. */
  lemma {:induction false} SplitWithoutSeparator(s: string, sep: char)
    requires sep !in s
    ensures Split(s, sep) == [s]
  {
    if s != [] {
      SplitWithoutSeparator(s[1..], sep);
      assert s == [s[0]] + s[1..];
    }
  }

  /** Text before the first separator is the first piece. */
  lemma {:induction false} SplitAtSeparator(a: string, b: string, sep: char)
    requires sep !in a
    ensures Split(a + [sep] + b, sep) == [a] + Split(b, sep)
  {
    if a == [] {
      assert a + [sep] + b == [sep] + b;
      assert ([sep] + b)[1..] == b;
    } else {
      var s := a + [sep] + b;
      assert s[0] == a[0] && s[1..] == a[1..] + [sep] + b;
      SplitAtSeparator(a[1..], b, sep);
      assert [a[0]] + a[1..] == a;
    }
  }

  /** A separator-free prefix attaches to the first piece. */
  lemma {:induction false} SplitWithPrefix(pad: string, s: string, sep: char)
    requires sep !in pad
    ensures Split(pad + s, sep) == [pad + Split(s, sep)[0]] + Split(s, sep)[1..]
  {
    if pad != [] {
      var t := pad + s;
      assert t[0] == pad[0] && t[1..] == pad[1..] + s;
      SplitWithPrefix(pad[1..], s, sep);
      assert [pad[0]] + (pad[1..] + Split(s, sep)[0]) == pad + Split(s, sep)[0];
    } else {
      var ps := Split(s, sep);
      assert pad + s == s && pad + ps[0] == ps[0];
      assert ps == [ps[0]] + ps[1..];
    }
  }

  /** Joining separator-free pieces with the separator and splitting again gives the pieces back. */
  lemma {:induction false} SplitJoin(pieces: seq<string>, sep: char)
    requires |pieces| >= 1
    requires forall i :: 0 <= i < |pieces| ==> sep !in pieces[i]
    ensures Split(Join(pieces, [sep]), sep) == pieces
  {
    if |pieces| == 1 {
      SplitWithoutSeparator(pieces[0], sep);
    } else {
      var rest := pieces[1..];
      SplitJoin(rest, sep);
      assert Join(pieces, [sep]) == pieces[0] + [sep] + Join(rest, [sep]);
      SplitAtSeparator(pieces[0], Join(rest, [sep]), sep);
      assert pieces == [pieces[0]] + rest;
    }
  }

  /** The predicate behind `.filter(Boolean)` on strings. */
  function IsNonEmpty(s: string): bool {
    s != ""
  }

  /** `.map(s => s.trim())`. */
  function TrimEach(pieces: seq<string>): (r: seq<string>)
    ensures |r| == |pieces|
    ensures forall i :: 0 <= i < |r| ==> r[i] == Trim(pieces[i])
  {
    seq(|pieces|, i requires 0 <= i < |pieces| => Trim(pieces[i]))
  }

  /** A well-formed label: non-empty, trimmed, without a comma. */
  predicate IsLabel(s: string) {
    s != "" && Trimmed(s) && ',' !in s
  }

  /** Trimming comma-free pieces gives trimmed comma-free pieces. */
  lemma TrimmedPieces(pieces: seq<string>, trimmed: seq<string>)
    requires forall i :: 0 <= i < |pieces| ==> ',' !in pieces[i]
    requires trimmed == TrimEach(pieces)
    ensures forall i :: 0 <= i < |trimmed| ==> Trimmed(trimmed[i]) && ',' !in trimmed[i]
  {
    forall i | 0 <= i < |trimmed| ensures Trimmed(trimmed[i]) && ',' !in trimmed[i] {
      var r := Trim(pieces[i]);
      assert trimmed[i] == r;
      assert ',' !in pieces[i];
    }
  }

  /** The non-empty trimmed pieces, in order, are labels. */
  lemma LabelsOfPieces(trimmed: seq<string>, labels: seq<string>)
    requires forall i :: 0 <= i < |trimmed| ==> Trimmed(trimmed[i]) && ',' !in trimmed[i]
    requires labels == Seqs.Filter(trimmed, IsNonEmpty)
    ensures forall i :: 0 <= i < |labels| ==> IsLabel(labels[i])
    ensures Seqs.IsSubsequence(labels, trimmed)
    ensures forall p :: p in trimmed && p != "" ==> p in labels
    ensures forall p :: p != "" ==> multiset(labels)[p] == multiset(trimmed)[p]
  {
    assert forall i :: 0 <= i < |labels| ==> labels[i] in trimmed;
    Seqs.FilterIsSubsequence(trimmed, IsNonEmpty);
    forall p | p != "" ensures multiset(labels)[p] == multiset(trimmed)[p] {
      Seqs.FilterMultiplicity(trimmed, IsNonEmpty, p);
    }
  }

  /**
   * `text.split(',').map(s => s.trim()).filter(Boolean)`: the comma-separated
   * label list of the admin forms. Every entry it yields is a well-formed label.
   */
  function ParseCommaList(text: string): (labels: seq<string>)
    ensures forall i :: 0 <= i < |labels| ==> IsLabel(labels[i])
    ensures |labels| <= |Split(text, ',')|
    ensures Seqs.IsSubsequence(labels, TrimEach(Split(text, ',')))
    ensures forall p :: p in TrimEach(Split(text, ',')) && p != "" ==> p in labels
    ensures forall p :: p != "" ==> multiset(labels)[p] == multiset(TrimEach(Split(text, ',')))[p]
  {
    var pieces := Split(text, ',');
    var trimmed := TrimEach(pieces);
    TrimmedPieces(pieces, trimmed);
    var labels := Seqs.Filter(trimmed, IsNonEmpty);
    LabelsOfPieces(trimmed, labels);
    labels
  }

  /** `labels.join(', ')`, how the admin forms show a label list for editing. */
  function JoinCommaList(labels: seq<string>): string {
    Join(labels, ", ")
  }

  /** The pieces of a joined label list: the first label, then each later label after one space. */
  lemma {:induction false} SplitJoinedLabels(labels: seq<string>)
    requires |labels| >= 1
    requires forall i :: 0 <= i < |labels| ==> ',' !in labels[i]
    ensures Split(JoinCommaList(labels), ',') ==
              [labels[0]] + seq(|labels| - 1, i requires 0 <= i < |labels| - 1 => " " + labels[i + 1])
  {
    if |labels| == 1 {
      SplitWithoutSeparator(labels[0], ',');
    } else {
      var tail := labels[1..];
      var joinedTail := JoinCommaList(tail);
      assert JoinCommaList(labels) == labels[0] + [','] + (" " + joinedTail);
      SplitAtSeparator(labels[0], " " + joinedTail, ',');
      SplitJoinedLabels(tail);
      SplitWithPrefix(" ", joinedTail, ',');
      var later := seq(|labels| - 1, i requires 0 <= i < |labels| - 1 => " " + labels[i + 1]);
      var laterOfTail := seq(|tail| - 1, i requires 0 <= i < |tail| - 1 => " " + tail[i + 1]);
      var tailPieces := Split(joinedTail, ',');
      assert tailPieces[0] == tail[0] && tailPieces[1..] == laterOfTail;
      assert later == [" " + tail[0]] + laterOfTail by {
        forall k | 0 < k < |later| ensures later[k] == laterOfTail[k - 1] {
        }
      }
    }
  }

  /**
   * Round trip of the edit form: parsing the `join(', ')` of well-formed labels
   * gives back exactly those labels, in order.
   */
  lemma CommaListRoundTrip(labels: seq<string>)
    requires forall i :: 0 <= i < |labels| ==> IsLabel(labels[i])
    ensures ParseCommaList(JoinCommaList(labels)) == labels
  {
    if labels == [] {
      assert Split("", ',') == [""];
      assert TrimEach([""]) == [""];
      assert Seqs.Filter([""], IsNonEmpty) == [];
    } else {
      SplitJoinedLabels(labels);
      var pieces := Split(JoinCommaList(labels), ',');
      forall i | 0 <= i < |labels| ensures Trim(pieces[i]) == labels[i] {
        if i > 0 {
          assert pieces[i] == " " + labels[i];
          TrimSkipsLeadingSpace(labels[i]);
        }
      }
      assert TrimEach(pieces) == labels;
      Seqs.FilterKeepsAll(labels, IsNonEmpty);
    }
  }
}
