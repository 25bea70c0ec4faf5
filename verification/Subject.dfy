/** Subject patterns: `*` stands for one token and `>` for any number of tokens, none included. */
module Subjects {
  import opened Wrappers
  import opened Sequences
  import opened Text

  // ----- what a pattern admits -----

  predicate Fits(token: string, received: string) {
    token == "*" || token == received
  }

  /** The first `n` tokens of the pattern fit. */
  predicate FitsUpTo(p: seq<string>, s: seq<string>, n: nat)
    requires n <= |p| && n <= |s|
  {
    forall i :: 0 <= i < n ==> Fits(p[i], s[i])
  }

  /** A `>` at position `j` is reached. */
  predicate OpensAt(p: seq<string>, s: seq<string>, j: nat) {
    j < |p| && j <= |s| && p[j] == ">" && FitsUpTo(p, s, j)
  }

  predicate Admits(p: seq<string>, s: seq<string>) {
    || (|p| == |s| && FitsUpTo(p, s, |p|))
    || exists j :: 0 <= j < |p| && OpensAt(p, s, j)
  }

  predicate Matches(pattern: string, subject: string) {
    Admits(Split(pattern, '.'), Split(subject, '.'))
  }

  method SubjectMatchesToken(token: string, subject: string) returns (r: bool)
    ensures r <==> Matches(token, subject)
  {
    var tokens, received := Split(token, '.'), Split(subject, '.');
    var i := 0;
    while true
      invariant i <= |tokens| && i <= |received| && FitsUpTo(tokens, received, i)
      invariant forall j :: 0 <= j < i ==> tokens[j] != ">"
      decreases |tokens| - i
    {
      if i < |tokens| {
        if tokens[i] == ">" {
          assert OpensAt(tokens, received, i);
          return true;
        }
        if i < |received| {
          if tokens[i] == "*" || tokens[i] == received[i] {
            i := i + 1;
            continue;
          }
          return false;
        }
        return false;
      }
      return i == |received|;
    }
  }

  // ----- laws -----

  lemma MatchesItself(pattern: string)
    ensures Matches(pattern, pattern)
  {
  }

  lemma AdmitsThrough(p: seq<string>, q: seq<string>, s: seq<string>)
    requires Admits(p, q) && Admits(q, s) && ">" !in q
    ensures Admits(p, s)
  {
    if j :| 0 <= j < |p| && OpensAt(p, q, j) {
      assert OpensAt(p, s, j);
    }
  }

  predicate Open(pattern: string) {
    ">" in Split(pattern, '.')
  }

  /** What matches a closed subject matches everything that the subject matches. */
  lemma MatchesThrough(p: string, q: string, s: string)
    requires Matches(p, q) && Matches(q, s) && !Open(q)
    ensures Matches(p, s)
  {
    AdmitsThrough(Split(p, '.'), Split(q, '.'), Split(s, '.'));
  }

  /** Position of the first `>`, or the length. */
  function FirstOpen(p: seq<string>): (j: nat)
    ensures j <= |p|
    ensures j < |p| ==> p[j] == ">"
    ensures forall i :: 0 <= i < j ==> p[i] != ">"
  {
    FirstIndex(p, (t: string) => t == ">")
  }

  /** Only the first `>` matters. */
  lemma AdmitsIff(p: seq<string>, s: seq<string>)
    ensures var j := FirstOpen(p);
      Admits(p, s) <==> j <= |s| && FitsUpTo(p, s, j) && (j == |p| ==> |s| == |p|)
  {
    var j := FirstOpen(p);
    if j < |p| {
      if j <= |s| && FitsUpTo(p, s, j) {
        assert OpensAt(p, s, j);
      }
      if k :| 0 <= k < |p| && OpensAt(p, s, k) {
        assert j <= k;
      }
    }
  }

  // ----- permissions -----

  predicate CanSubscribe(allowed: seq<string>, subject: string) {
    exists i :: 0 <= i < |allowed| && Matches(allowed[i], subject)
  }

  predicate Concrete(subject: string) {
    var s := Split(subject, '.');
    ">" !in s && "*" !in s
  }

  /** Every subject that a subscription to `q` receives is one that `p` admits. */
  ghost predicate Covers(p: string, q: string) {
    forall s: string :: Concrete(s) && Matches(q, s) ==> Matches(p, s)
  }

  /** The fewest tokens of a subject that an open `q` admits: a subject has at least one. */
  function Shortest(q: seq<string>): nat {
    if FirstOpen(q) == 0 then 1 else FirstOpen(q)
  }

  /** The pattern `p` is as open as `q`. */
  predicate OpensEarly(p: string, q: string) {
    var p', q' := Split(p, '.'), Split(q, '.');
    FirstOpen(p') < |p'| && FirstOpen(p') <= Shortest(q')
  }

  lemma OpensEarlyCovers(p: string, q: string, s: string)
    requires Matches(p, q) && Open(q) && OpensEarly(p, q) && Matches(q, s)
    ensures Matches(p, s)
  {
    var p', q', s' := Split(p, '.'), Split(q, '.'), Split(s, '.');
    AdmitsIff(p', q');
    AdmitsIff(q', s');
    AdmitsIff(p', s');
  }

  /** A subject of `n` tokens that `q` admits, with the same token wherever `q` leaves it free. */
  function Instance(q: seq<string>, n: nat, free: string): seq<string> {
    seq(n, i requires 0 <= i < n => if i < FirstOpen(q) && q[i] != "*" then q[i] else free)
  }

  /** A token that is nothing but itself. */
  predicate Wildless(token: string) {
    '.' !in token && token != "*" && token != ">"
  }

  /** The lengths of the subjects that `q` admits. */
  predicate LengthOf(q: seq<string>, n: nat) {
    n >= 1 && if FirstOpen(q) < |q| then n >= FirstOpen(q) else n == |q|
  }

  lemma InstanceFits(q: seq<string>, n: nat, free: string)
    requires LengthOf(q, n)
    ensures Admits(q, Instance(q, n, free))
  {
    AdmitsIff(q, Instance(q, n, free));
  }

  lemma InstanceIsAdmitted(q: string, n: nat, free: string) returns (s: string)
    requires LengthOf(Split(q, '.'), n) && Wildless(free)
    ensures Concrete(s) && Matches(q, s) && Split(s, '.') == Instance(Split(q, '.'), n, free)
  {
    var s' := Instance(Split(q, '.'), n, free);
    s := Join(s', ".");
    SplitJoin(s', '.');
    InstanceFits(Split(q, '.'), n, free);
  }

  /** A permission that admits the text of an open subscription covers all that the subscription
      can receive exactly when it has a `>` no later than the shortest such subject ends. */
  lemma CoverageExact(p: string, q: string)
    requires Matches(p, q)
    ensures Covers(p, q) <==> !Open(q) || OpensEarly(p, q)
  {
    var p', q' := Split(p, '.'), Split(q, '.');
    if !Open(q) {
      forall s: string | Concrete(s) && Matches(q, s) ensures Matches(p, s) {
        MatchesThrough(p, q, s);
      }
    } else if OpensEarly(p, q) {
      forall s: string | Concrete(s) && Matches(q, s) ensures Matches(p, s) {
        OpensEarlyCovers(p, q, s);
      }
    } else {
      var n := if FirstOpen(p') < |p'| then Shortest(q') else Shortest(q') + |p'| + 1;
      var s := InstanceIsAdmitted(q, n, "x");
      AdmitsIff(p', Split(s, '.'));
    }
  }

  lemma SplitDot(a: string, b: string)
    requires '.' !in a
    ensures Split(a + ['.'] + b, '.') == [a] + Split(b, '.')
  {
    SplitConcat(a, '.', b);
    SplitFree(a, '.');
  }

  lemma ExampleTokens()
    ensures Split("a.*", '.') == ["a", "*"]
    ensures Split("a.>", '.') == ["a", ">"]
    ensures Split("a.b.c", '.') == ["a", "b", "c"]
  {
    SplitDot("a", "*");
    SplitFree("*", '.');
    SplitDot("a", ">");
    SplitFree(">", '.');
    SplitDot("b", "c");
    SplitFree("c", '.');
    SplitDot("a", "b.c");
    assert "a.*" == "a" + ['.'] + "*" && "a.>" == "a" + ['.'] + ">";
    assert "b.c" == "b" + ['.'] + "c" && "a.b.c" == "a" + ['.'] + "b.c";
  }

  /** `a.*` lets a user subscribe to `a.>`, and so receive `a.b.c`. */
  lemma PermissionIsWidened()
    ensures CanSubscribe(["a.*"], "a.>") && Matches("a.>", "a.b.c") && !CanSubscribe(["a.*"], "a.b.c")
  {
    ExampleTokens();
    AdmitsIff(["a", "*"], ["a", ">"]);
    AdmitsIff(["a", ">"], ["a", "b", "c"]);
    AdmitsIff(["a", "*"], ["a", "b", "c"]);
    assert Matches(["a.*"][0], "a.>");
  }

  // ----- the subjects that SUB accepts -----

  predicate Alphanumeric(c: char) {
    'a' <= c <= 'z' || 'A' <= c <= 'Z' || '0' <= c <= '9'
  }

  /** Not empty, and with some letter, digit or wildcard. */
  predicate TokenShape(t: string) {
    exists i :: 0 <= i < |t| && (Alphanumeric(t[i]) || t[i] == '*' || t[i] == '>')
  }

  predicate ValidSubject(subject: string) {
    var tokens := Split(subject, '.');
    && (forall i :: 0 <= i < |tokens| ==> TokenShape(tokens[i]))
    && (forall i :: 0 <= i < |tokens| - 1 ==> tokens[i] != ">")
    && (forall i :: 0 <= i < |tokens| ==> '*' in tokens[i] ==> tokens[i] == "*")
  }

  method ValidateSubject(subject: string) returns (r: Result<(), string>)
    ensures r.Ok? <==> ValidSubject(subject)
  {
    var tokens := Split(subject, '.');
    for i := 0 to |tokens|
      invariant forall k :: 0 <= k < i ==> TokenShape(tokens[k]) && (k < |tokens| - 1 ==> tokens[k] != ">")
    {
      if tokens[i] == "" {
        return Err("empty token");
      }
      if !TokenShape(tokens[i]) {
        return Err("no alphanumeric character");
      }
      if tokens[i] == ">" && |tokens| - 1 > i {
        return Err("> is not the last token");
      }
    }
    for i := 0 to |tokens|
      invariant forall k :: 0 <= k < i ==> '*' in tokens[k] ==> |tokens[k]| == 1
    {
      if '*' in tokens[i] && |tokens[i]| > 1 {
        return Err("* is not alone");
      }
    }
    r := Ok(());
  }

  /** The letters and digits of ASCII, by their codes. */
  lemma AlphanumericIs(c: char)
    ensures Alphanumeric(c) <==> 48 <= c as int <= 57 || 65 <= c as int <= 90 || 97 <= c as int <= 122
  {
  }

  lemma PlainToken(t: string)
    requires t != "" && forall k :: 0 <= k < |t| ==> 48 <= t[k] as int <= 57 || 65 <= t[k] as int <= 90 || 97 <= t[k] as int <= 122
    ensures TokenShape(t) && t != ">" && '*' !in t
  {
    AlphanumericIs(t[0]);
  }

  /** What is written with letters and digits between its dots is accepted. */
  lemma PlainSubjectAccepted(subject: string)
    requires forall t :: t in Split(subject, '.') ==> t != "" && forall k :: 0 <= k < |t| ==>
      48 <= t[k] as int <= 57 || 65 <= t[k] as int <= 90 || 97 <= t[k] as int <= 122
    ensures ValidSubject(subject)
  {
    var tokens := Split(subject, '.');
    forall i | 0 <= i < |tokens| ensures TokenShape(tokens[i]) && tokens[i] != ">" && '*' !in tokens[i] {
      PlainToken(tokens[i]);
    }
  }

  /** A letter, a digit or a wildcard. */
  predicate Telling(c: char) {
    48 <= c as int <= 57 || 65 <= c as int <= 90 || 97 <= c as int <= 122 || c == '*' || c == '>'
  }

  predicate Tells(t: string) {
    exists k :: 0 <= k < |t| && Telling(t[k])
  }

  lemma ShapeIs(t: string)
    ensures TokenShape(t) <==> Tells(t)
    ensures '*' in t ==> (|t| == 1 <==> t == "*")
  {
    if TokenShape(t) {
      var k :| 0 <= k < |t| && (Alphanumeric(t[k]) || t[k] == '*' || t[k] == '>');
      assert Telling(t[k]);
    }
    if k :| 0 <= k < |t| && Telling(t[k]) {
      AlphanumericIs(t[k]);
      assert Alphanumeric(t[k]) || t[k] == '*' || t[k] == '>';
    }
  }

  /** What is asked of the tokens, whatever the code calls it. */
  predicate WellFormed(tokens: seq<string>) {
    && (forall i :: 0 <= i < |tokens| ==> Tells(tokens[i]))
    && (forall i :: 0 <= i < |tokens| - 1 ==> tokens[i] != ">")
    && (forall i :: 0 <= i < |tokens| && '*' in tokens[i] ==> |tokens[i]| == 1)
  }

  /** A subject is accepted exactly if each of its tokens holds a letter, a digit or a wildcard, only the last may
      be `>`, and those with a `*` are nothing else. */
  lemma ValidSubjectExact(subject: string)
    ensures ValidSubject(subject) <==> WellFormed(Split(subject, '.'))
  {
    var tokens := Split(subject, '.');
    forall i | 0 <= i < |tokens|
      ensures TokenShape(tokens[i]) <==> Tells(tokens[i])
      ensures '*' in tokens[i] ==> (|tokens[i]| == 1 <==> tokens[i] == "*")
    {
      ShapeIs(tokens[i]);
    }
  }

  /** One alphanumeric character is enough: the rest of the token may be anything. */
  lemma SymbolsAreAccepted()
    ensures ValidSubject("a#b")
  {
    SplitFree("a#b", '.');
    assert Alphanumeric("a#b"[0]);
  }
}
