/** The string operations of the Rust standard library that the programs use: `split`, `trim`,
    `split_whitespace`, `join`, and printing and parsing of `usize`. */
module Text {
  import opened Wrappers

  /** Unicode White_Space, as `char::is_whitespace`. */
  predicate IsWhite(c: char) {
    || c == ' ' || '\t' <= c <= '\r' || c == '\U{0085}' || c == '\U{00A0}' || c == '\U{1680}'
    || '\U{2000}' <= c <= '\U{200A}' || c == '\U{2028}' || c == '\U{2029}' || c == '\U{202F}' || c == '\U{205F}'
    || c == '\U{3000}'
  }

  ghost predicate NoWhite(s: string) {
    forall i :: 0 <= i < |s| ==> !IsWhite(s[i])
  }

  // ----- split and join -----

  function Split(s: string, c: char): (r: seq<string>)
    ensures |r| >= 1
    ensures forall i :: 0 <= i < |r| ==> c !in r[i]
  {
    if s == "" then [""]
    else
      var r := Split(s[1..], c);
      if s[0] == c then [""] + r else [[s[0]] + r[0]] + r[1..]
  }

  function Join(parts: seq<string>, sep: string): string {
    if parts == [] then ""
    else if |parts| == 1 then parts[0]
    else parts[0] + sep + Join(parts[1..], sep)
  }

  lemma {:induction false} SplitFree(s: string, c: char)
    requires c !in s
    ensures Split(s, c) == [s]
  {
    if s != "" {
      SplitFree(s[1..], c);
      assert s == [s[0]] + s[1..];
    }
  }

  lemma {:induction false} SplitConcat(a: string, c: char, b: string)
    ensures Split(a + [c] + b, c) == Split(a, c) + Split(b, c)
  {
    var s := a + [c] + b;
    if a == "" {
      assert s[1..] == b;
    } else {
      assert s[1..] == a[1..] + [c] + b;
      SplitConcat(a[1..], c, b);
    }
  }

  /** Splitting undoes joining pieces that do not hold the separator. */
  lemma {:induction false} SplitJoin(parts: seq<string>, c: char)
    requires parts != [] && forall i :: 0 <= i < |parts| ==> c !in parts[i]
    ensures Split(Join(parts, [c]), c) == parts
  {
    SplitFree(parts[0], c);
    if |parts| > 1 {
      SplitJoin(parts[1..], c);
      SplitConcat(parts[0], c, Join(parts[1..], [c]));
    }
  }

  // ----- trim -----

  function TrimStart(s: string): string {
    if s != "" && IsWhite(s[0]) then TrimStart(s[1..]) else s
  }

  function TrimEnd(s: string): string {
    if s != "" && IsWhite(s[|s| - 1]) then TrimEnd(s[..|s| - 1]) else s
  }

  function Trim(s: string): string {
    TrimEnd(TrimStart(s))
  }

  predicate Trimmed(s: string) {
    s != "" ==> !IsWhite(s[0]) && !IsWhite(s[|s| - 1])
  }

  lemma {:induction false} TrimStartShape(s: string)
    ensures |TrimStart(s)| <= |s| && TrimStart(s) == s[|s| - |TrimStart(s)|..]
    ensures TrimStart(s) != "" ==> !IsWhite(TrimStart(s)[0])
  {
    if s != "" && IsWhite(s[0]) {
      TrimStartShape(s[1..]);
    }
  }

  lemma {:induction false} TrimEndShape(s: string)
    ensures |TrimEnd(s)| <= |s| && TrimEnd(s) == s[..|TrimEnd(s)|]
    ensures TrimEnd(s) != "" ==> !IsWhite(TrimEnd(s)[|TrimEnd(s)| - 1])
  {
    if s != "" && IsWhite(s[|s| - 1]) {
      TrimEndShape(s[..|s| - 1]);
    }
  }

  /** `trim` leaves a text alone exactly when it neither starts nor ends with white space. */
  lemma TrimIsIdentity(s: string)
    ensures Trim(s) == s <==> Trimmed(s)
    ensures Trimmed(Trim(s))
  {
    TrimStartShape(s);
    TrimEndShape(TrimStart(s));
  }

  // ----- split_whitespace -----

  /** Length of the word at the start of `s`. */
  function WordLength(s: string): (n: nat)
    ensures n <= |s|
    ensures forall i :: 0 <= i < n ==> !IsWhite(s[i])
    ensures n < |s| ==> IsWhite(s[n])
  {
    if s == "" || IsWhite(s[0]) then 0 else 1 + WordLength(s[1..])
  }

  function SplitWhite(s: string): seq<string>
    decreases |s|
  {
    if s == "" then []
    else if IsWhite(s[0]) then SplitWhite(s[1..])
    else [s[..WordLength(s)]] + SplitWhite(s[WordLength(s)..])
  }

  /** The text with every run of white space turned into one blank, none at the ends. */
  function Normal(s: string): string {
    Join(SplitWhite(s), " ")
  }

  ghost predicate Words(ws: seq<string>) {
    forall i :: 0 <= i < |ws| ==> ws[i] != "" && NoWhite(ws[i])
  }

  lemma {:induction false} SplitWhiteWords(s: string)
    ensures Words(SplitWhite(s))
    decreases |s|
  {
    if s != "" {
      if IsWhite(s[0]) {
        SplitWhiteWords(s[1..]);
      } else {
        SplitWhiteWords(s[WordLength(s)..]);
      }
    }
  }

  lemma WordLengthOf(w: string, rest: string)
    requires NoWhite(w) && (rest != "" ==> IsWhite(rest[0]))
    ensures WordLength(w + rest) == |w|
  {
    assert forall i :: 0 <= i < |w| ==> (w + rest)[i] == w[i];
    assert rest != "" ==> (w + rest)[|w|] == rest[0];
  }

  lemma SplitWhiteFirst(w: string, rest: string)
    requires w != "" && NoWhite(w) && (rest != "" ==> IsWhite(rest[0]))
    ensures SplitWhite(w + rest) == [w] + SplitWhite(rest)
  {
    WordLengthOf(w, rest);
    assert (w + rest)[..|w|] == w && (w + rest)[|w|..] == rest;
  }

  /** Splitting at white space undoes joining words with blanks. */
  lemma {:induction false} SplitWhiteJoin(ws: seq<string>)
    requires Words(ws)
    ensures SplitWhite(Join(ws, " ")) == ws
  {
    if |ws| == 1 {
      SplitWhiteFirst(ws[0], "");
      assert ws[0] + "" == ws[0];
    } else if |ws| > 1 {
      var rest := Join(ws[1..], " ");
      SplitWhiteJoin(ws[1..]);
      SplitWhiteFirst(ws[0], " " + rest);
      assert ws[0] + " " + rest == ws[0] + (" " + rest);
      assert (" " + rest)[1..] == rest;
    }
  }

  lemma NormalTwice(s: string)
    ensures Normal(Normal(s)) == Normal(s)
  {
    SplitWhiteWords(s);
    SplitWhiteJoin(SplitWhite(s));
  }

  ghost predicate SomeHas(ws: seq<string>, c: char) {
    exists i :: 0 <= i < |ws| && c in ws[i]
  }

  lemma SomeHasHead(w: string, ws: seq<string>, c: char)
    ensures SomeHas([w] + ws, c) <==> c in w || SomeHas(ws, c)
  {
    var all := [w] + ws;
    assert all[0] == w && forall i :: 0 <= i < |ws| ==> all[i + 1] == ws[i];
    if SomeHas(all, c) && c !in w {
      var i :| 0 <= i < |all| && c in all[i];
      assert all[i] == ws[i - 1];
    }
  }

  lemma {:induction false} SplitWhiteKeeps(s: string, c: char)
    requires !IsWhite(c)
    ensures c in s <==> SomeHas(SplitWhite(s), c)
    decreases |s|
  {
    if s != "" {
      if IsWhite(s[0]) {
        SplitWhiteKeeps(s[1..], c);
        assert s == [s[0]] + s[1..] && c != s[0];
      } else {
        var n := WordLength(s);
        SplitWhiteKeeps(s[n..], c);
        assert s == s[..n] + s[n..];
        SomeHasHead(s[..n], SplitWhite(s[n..]), c);
      }
    }
  }

  lemma {:induction false} JoinKeeps(ws: seq<string>, sep: string, c: char)
    requires c !in sep
    ensures c in Join(ws, sep) <==> SomeHas(ws, c)
  {
    if |ws| > 1 {
      JoinKeeps(ws[1..], sep, c);
    }
    if ws != [] {
      SomeHasHead(ws[0], ws[1..], c);
      assert [ws[0]] + ws[1..] == ws;
    }
  }

  /** Normalising neither adds nor removes a character that is not white space. */
  lemma NormalKeeps(s: string, c: char)
    requires !IsWhite(c)
    ensures c in Normal(s) <==> c in s
  {
    SplitWhiteKeeps(s, c);
    JoinKeeps(SplitWhite(s), " ", c);
  }

  // ----- usize -----

  const USIZE_LIMIT: nat := 0x1_0000_0000_0000_0000

  predicate IsDigit(c: char) {
    '0' <= c <= '9'
  }

  function Digit(d: nat): char
    requires d < 10
  {
    '0' + d as char
  }

  function Print(n: nat): string {
    if n < 10 then [Digit(n)] else Print(n / 10) + [Digit(n % 10)]
  }

  predicate AllDigits(s: string) {
    forall i :: 0 <= i < |s| ==> IsDigit(s[i])
  }

  function Value(s: string): nat
    requires AllDigits(s)
  {
    if s == "" then 0 else Value(s[..|s| - 1]) * 10 + (s[|s| - 1] as int - '0' as int)
  }

  /** `str::parse::<usize>`: an optional plus sign, digits, no overflow. */
  function ParseUsize(s: string): Option<nat> {
    var d := if s != "" && s[0] == '+' then s[1..] else s;
    if d == "" || !AllDigits(d) || Value(d) >= USIZE_LIMIT then None else Some(Value(d))
  }

  lemma {:induction false} PrintShape(n: nat)
    ensures Print(n) != "" && AllDigits(Print(n)) && Value(Print(n)) == n
  {
    if n >= 10 {
      PrintShape(n / 10);
      var p := Print(n / 10) + [Digit(n % 10)];
      assert p[..|p| - 1] == Print(n / 10);
    } else {
      assert [Digit(n)][..0] == "";
    }
  }

  /** Parsing undoes printing. */
  lemma ParsePrint(n: nat)
    requires n < USIZE_LIMIT
    ensures ParseUsize(Print(n)) == Some(n)
    ensures Print(n) != "" && NoWhite(Print(n)) && ',' !in Print(n) && '.' !in Print(n)
  {
    PrintShape(n);
  }

  // ----- characters and numbers by their codes -----

  lemma IsWhiteIs(c: char)
    ensures var n := c as int;
      IsWhite(c) <==> 9 <= n <= 13 || n == 32 || n == 133 || n == 160 || n == 5760 || 8192 <= n <= 8202
                      || n == 8232 || n == 8233 || n == 8239 || n == 8287 || n == 12288
  {
  }

  /** Decimal digits, the most significant first. */
  lemma PrintIs(n: nat)
    ensures n < 10 ==> |Print(n)| == 1 && Print(n)[0] as int == 48 + n
    ensures n >= 10 ==> Print(n) == Print(n / 10) + Print(n % 10)
  {
  }

  lemma ValueMore(s: string, c: char)
    requires AllDigits(s) && 48 <= c as int <= 57
    ensures AllDigits(s + [c]) && Value(s + [c]) == Value(s) * 10 + (c as int - 48)
  {
    assert (s + [c])[..|s|] == s;
  }

  /** A number is read exactly from decimal digits, at least one, with a plus sign in front or not, if it is below
      2 to the 64th. */
  lemma ParseUsizeExact(s: string)
    ensures var d := if s != "" && s[0] == '+' then s[1..] else s;
      var digits := d != "" && forall i :: 0 <= i < |d| ==> 48 <= d[i] as int <= 57;
      && (ParseUsize(s).Some? <==> digits && AllDigits(d) && Value(d) < 0x1_0000_0000_0000_0000)
      && (ParseUsize(s).Some? ==> ParseUsize(s) == Some(Value(d)))
      && (digits ==> AllDigits(d))
  {
  }
}
