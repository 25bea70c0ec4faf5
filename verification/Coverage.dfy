/** What a list of permissions lets a subscription receive. */
module Coverage {
  import opened Text
  import opened Subjects

  /** Every concrete subject that a subscription to `q` receives is one that may be subscribed to. */
  ghost predicate CoversAll(allowed: seq<string>, q: string) {
    forall s: string :: Concrete(s) && Matches(q, s) ==> CanSubscribe(allowed, s)
  }

  predicate SomeAdmits(allowed: seq<string>, s: seq<string>) {
    exists i :: 0 <= i < |allowed| && Admits(Split(allowed[i], '.'), s)
  }

  function Max(a: nat, b: nat): nat {
    if a < b then b else a
  }

  /** The most tokens and the most characters of a permission. */
  function Longest(allowed: seq<string>): (n: nat)
    ensures forall i :: 0 <= i < |allowed| ==> |Split(allowed[i], '.')| <= n
  {
    if allowed == [] then 0 else Max(|Split(allowed[0], '.')|, Longest(allowed[1..]))
  }

  function Widest(allowed: seq<string>): (n: nat)
    ensures forall i :: 0 <= i < |allowed| ==> |allowed[i]| <= n
  {
    if allowed == [] then 0 else Max(|allowed[0]|, Widest(allowed[1..]))
  }

  /** A token that no permission holds. */
  function Unheard(allowed: seq<string>): string {
    seq(Widest(allowed) + 1, _ => 'x')
  }

  /** The greatest length that has to be looked at. */
  function Enough(allowed: seq<string>, q: seq<string>): nat {
    if FirstOpen(q) < |q| then Max(Shortest(q), Longest(allowed) + 1) else |q|
  }

  /** The check: for each length up to one past the longest permission, some permission admits the
      subject of that length whose free tokens no permission knows. */
  predicate CoveredBy(allowed: seq<string>, q: string) {
    var q' := Split(q, '.');
    forall n :: 1 <= n <= Enough(allowed, q') && LengthOf(q', n) ==> SomeAdmits(allowed, Instance(q', n, Unheard(allowed)))
  }

  lemma {:induction false} PieceShorter(s: string, c: char, i: nat)
    requires i < |Split(s, c)|
    ensures |Split(s, c)[i]| <= |s|
  {
    if s != "" {
      if s[0] != c {
        PieceShorter(s[1..], c, i);
      } else if i > 0 {
        PieceShorter(s[1..], c, i - 1);
      }
    }
  }

  lemma UnheardIsNew(allowed: seq<string>, i: nat, k: nat)
    requires i < |allowed| && k < |Split(allowed[i], '.')|
    ensures Split(allowed[i], '.')[k] != Unheard(allowed)
  {
    PieceShorter(allowed[i], '.', k);
  }

  lemma UnheardIsPlain(allowed: seq<string>)
    ensures Wildless(Unheard(allowed))
  {
    assert Unheard(allowed)[0] == 'x';
  }

  /** A pattern that admits the instance with an unheard token admits, up to that length, all that
      `q` admits. */
  lemma InstanceFitsAll(p: seq<string>, q: seq<string>, s: seq<string>, n: nat, free: string)
    requires free !in p && Admits(q, s) && n <= |s| && LengthOf(q, n)
    requires Admits(p, Instance(q, n, free))
    requires FirstOpen(p) == |p| ==> |s| == n
    ensures Admits(p, s)
  {
    AdmitsIff(q, s);
    AdmitsIff(p, Instance(q, n, free));
    var j := FirstOpen(p);
    forall i | 0 <= i < j ensures Fits(p[i], s[i]) {
      assert Fits(p[i], Instance(q, n, free)[i]);
      assert p[i] != free;
    }
    AdmitsIff(p, s);
  }

  lemma CoveredReceives(allowed: seq<string>, q: string, s: string)
    requires CoveredBy(allowed, q) && Matches(q, s)
    ensures CanSubscribe(allowed, s)
  {
    var q', s' := Split(q, '.'), Split(s, '.');
    AdmitsIff(q', s');
    var n := if |s'| < Enough(allowed, q') then |s'| else Enough(allowed, q');
    assert LengthOf(q', n);
    var i :| 0 <= i < |allowed| && Admits(Split(allowed[i], '.'), Instance(q', n, Unheard(allowed)));
    var p' := Split(allowed[i], '.');
    forall k | 0 <= k < |p'| ensures p'[k] != Unheard(allowed) {
      UnheardIsNew(allowed, i, k);
    }
    AdmitsIff(p', Instance(q', n, Unheard(allowed)));
    InstanceFitsAll(p', q', s', n, Unheard(allowed));
    assert Matches(allowed[i], s);
  }

  /** The permissions cover all that a subscription can receive exactly when the check says so. */
  lemma ListCoverageExact(allowed: seq<string>, q: string)
    ensures CoversAll(allowed, q) <==> CoveredBy(allowed, q)
  {
    if CoveredBy(allowed, q) {
      forall s: string | Concrete(s) && Matches(q, s) ensures CanSubscribe(allowed, s) {
        CoveredReceives(allowed, q, s);
      }
    }
    if CoversAll(allowed, q) {
      var q' := Split(q, '.');
      UnheardIsPlain(allowed);
      forall n | 1 <= n <= Enough(allowed, q') && LengthOf(q', n)
        ensures SomeAdmits(allowed, Instance(q', n, Unheard(allowed)))
      {
        var s := InstanceIsAdmitted(q, n, Unheard(allowed));
        var i :| 0 <= i < |allowed| && Matches(allowed[i], s);
      }
    }
  }

  /** A subject out of a subscription that is not covered, which may not be subscribed to. */
  lemma UncoveredSubject(allowed: seq<string>, q: string) returns (s: string)
    requires !CoveredBy(allowed, q)
    ensures Concrete(s) && Matches(q, s) && !CanSubscribe(allowed, s)
  {
    ListCoverageExact(allowed, q);
    s :| Concrete(s) && Matches(q, s) && !CanSubscribe(allowed, s);
  }

  lemma ThreeTokens()
    ensures Split("a", '.') == ["a"] && Split("a.*", '.') == ["a", "*"] && Split("a.>", '.') == ["a", ">"]
    ensures Split("a.*.>", '.') == ["a", "*", ">"]
  {
    ExampleTokens();
    SplitFree("a", '.');
    SplitFree(">", '.');
    SplitDot("*", ">");
    SplitDot("a", "*.>");
    assert "a.*.>" == "a" + ['.'] + "*.>" && "*.>" == "*" + ['.'] + ">";
  }

  lemma CoversTogetherAt(s: string)
    requires Matches("a.>", s)
    ensures CanSubscribe(["a", "a.*", "a.*.>"], s)
  {
    ThreeTokens();
    var s' := Split(s, '.');
    AdmitsIff(["a", ">"], s');
    assert s'[0] == "a";
    if |s'| == 1 {
      AdmitsIff(["a"], s');
      assert Matches(["a", "a.*", "a.*.>"][0], s);
    } else if |s'| == 2 {
      AdmitsIff(["a", "*"], s');
      assert Matches(["a", "a.*", "a.*.>"][1], s);
    } else {
      AdmitsIff(["a", "*", ">"], s');
      assert Matches(["a", "a.*", "a.*.>"][2], s);
    }
  }

  /** Permissions may cover together what none covers alone. */
  lemma CoverTogether()
    ensures CoveredBy(["a", "a.*", "a.*.>"], "a.>")
  {
    forall s: string | Concrete(s) && Matches("a.>", s) ensures CanSubscribe(["a", "a.*", "a.*.>"], s) {
      CoversTogetherAt(s);
    }
    ListCoverageExact(["a", "a.*", "a.*.>"], "a.>");
  }
}
