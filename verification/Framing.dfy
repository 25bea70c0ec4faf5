/** Bytes cut at CR-LF: what the readers of both sides do. */
module Framing {
  import opened Wrappers

  newtype byte = b: int | 0 <= b < 256

  type Bytes = seq<byte>

  const CR: byte := 13
  const LF: byte := 10

  /** Position of the first CR-LF, or the length. */
  function FirstPair(s: Bytes): (i: nat)
    ensures i <= |s|
    ensures i < |s| ==> i + 1 < |s| && s[i] == CR && s[i + 1] == LF
    ensures forall j :: 0 <= j < i && j + 1 < |s| ==> !(s[j] == CR && s[j + 1] == LF)
  {
    if |s| < 2 then |s|
    else if s[0] == CR && s[1] == LF then 0
    else 1 + FirstPair(s[1..])
  }

  predicate PairFree(s: Bytes) {
    FirstPair(s) == |s|
  }

  /** The pieces between one CR-LF and the next. */
  function Cut(s: Bytes): (r: seq<Bytes>)
    ensures |r| >= 1
    decreases |s|
  {
    var i := FirstPair(s);
    if i == |s| then [s] else [s[..i]] + Cut(s[i + 2..])
  }

  function Glue(pieces: seq<Bytes>): Bytes {
    if pieces == [] then []
    else if |pieces| == 1 then pieces[0]
    else pieces[0] + [CR, LF] + Glue(pieces[1..])
  }

  lemma FirstPairOf(a: Bytes, b: Bytes)
    requires PairFree(a)
    ensures FirstPair(a + [CR, LF] + b) == |a|
    ensures (a + [CR, LF] + b)[..|a|] == a && (a + [CR, LF] + b)[|a| + 2..] == b
  {
    var s := a + [CR, LF] + b;
    assert s[|a|] == CR && s[|a| + 1] == LF;
    assert forall j :: 0 <= j < |a| ==> s[j] == a[j];
  }

  predicate AllPairFree(pieces: seq<Bytes>) {
    forall i :: 0 <= i < |pieces| ==> PairFree(pieces[i])
  }

  lemma {:induction false} CutPieces(s: Bytes)
    ensures AllPairFree(Cut(s)) && Glue(Cut(s)) == s
    decreases |s|
  {
    var i := FirstPair(s);
    if i < |s| {
      CutPieces(s[i + 2..]);
      var rest := Cut(s[i + 2..]);
      assert s[..i] + [CR, LF] + s[i + 2..] == s;
      assert PairFree(s[..i]);
      assert ([s[..i]] + rest)[1..] == rest;
    }
  }

  lemma CutFirst(a: Bytes, b: Bytes)
    requires PairFree(a)
    ensures Cut(a + [CR, LF] + b) == [a] + Cut(b)
  {
    FirstPairOf(a, b);
  }

  lemma CutOne(pieces: seq<Bytes>)
    requires |pieces| == 1 && AllPairFree(pieces)
    ensures Cut(Glue(pieces)) == pieces
  {
  }

  lemma HeadRest(pieces: seq<Bytes>)
    requires |pieces| > 1
    ensures Glue(pieces) == pieces[0] + [CR, LF] + Glue(pieces[1..])
    ensures pieces == [pieces[0]] + pieces[1..]
    ensures AllPairFree(pieces) ==> PairFree(pieces[0]) && AllPairFree(pieces[1..])
  {
  }

  lemma {:induction false} CutGlue(pieces: seq<Bytes>)
    requires pieces != [] && AllPairFree(pieces)
    ensures Cut(Glue(pieces)) == pieces
  {
    if |pieces| == 1 {
      CutOne(pieces);
    } else {
      HeadRest(pieces);
      CutGlue(pieces[1..]);
      CutFirst(pieces[0], Glue(pieces[1..]));
    }
  }

  /** Cutting undoes gluing exactly when no piece holds a CR-LF. */
  lemma CutGlueExact(pieces: seq<Bytes>)
    requires pieces != []
    ensures Cut(Glue(pieces)) == pieces <==> AllPairFree(pieces)
  {
    if AllPairFree(pieces) {
      CutGlue(pieces);
    } else {
      CutPieces(Glue(pieces));
    }
  }

  // ----- the readers -----

  /** What one read takes from the bytes that are left, when they hold a CR-LF. */
  function Next(rest: Bytes): Option<Bytes> {
    var i := FirstPair(rest);
    if i == |rest| then None else Some(rest[..i])
  }

  function AfterNext(rest: Bytes): Bytes {
    var i := FirstPair(rest);
    if i == |rest| then [] else rest[i + 2..]
  }

  predicate NoPair(s: Bytes) {
    forall j :: 0 <= j < |s| - 1 ==> !(s[j] == CR && s[j + 1] == LF)
  }

  lemma FirstPairIs(s: Bytes, i: nat)
    requires i + 1 < |s| && s[i] == CR && s[i + 1] == LF
    requires forall j :: 0 <= j < i ==> !(s[j] == CR && s[j + 1] == LF)
    ensures FirstPair(s) == i
  {
  }

  lemma NoPairIs(s: Bytes)
    requires NoPair(s)
    ensures FirstPair(s) == |s|
  {
  }

  /** A reader that finds its first CR-LF behind `line`. */
  lemma FoundPair(line: Bytes, rest: Bytes)
    requires NoPair(line + [CR])
    ensures Next(line + [CR, LF] + rest) == Some(line) && AfterNext(line + [CR, LF] + rest) == rest
  {
    forall j | 0 <= j < |line| - 1 ensures !(line[j] == CR && line[j + 1] == LF) {
      assert line[j] == (line + [CR])[j] && line[j + 1] == (line + [CR])[j + 1];
    }
    NoPairIs(line);
    FirstPairOf(line, rest);
  }

  class Reader {
    var rest: Bytes

    constructor (bytes: Bytes)
      ensures rest == bytes
    {
      rest := bytes;
    }

    method ReadByte() returns (b: Option<byte>)
      modifies this
      ensures old(rest) == [] ==> b.None? && rest == []
      ensures old(rest) != [] ==> b == Some(old(rest)[0]) && rest == old(rest)[1..]
    {
      if rest == [] {
        return None;
      }
      b := Some(rest[0]);
      rest := rest[1..];
    }

    /** The client's reader. */
    method ReadUntilCrlf() returns (r: Option<Bytes>)
      modifies this
      ensures r == Next(old(rest)) && rest == AfterNext(old(rest))
    {
      ghost var s := rest;
      var buffer: Bytes := [];
      var last: byte := 0;
      while true
        invariant s == buffer + rest && NoPair(buffer)
        invariant last == if buffer == [] then 0 else buffer[|buffer| - 1]
        decreases |rest|
      {
        var b := ReadByte();
        if b.None? {
          NoPairIs(s);
          return None;
        }
        if last == CR && b.value == LF {
          var line := buffer[..|buffer| - 1];
          assert line + [CR] == buffer && line + [CR, LF] + rest == s;
          FoundPair(line, rest);
          return Some(line);
        }
        buffer := buffer + [b.value];
        last := b.value;
      }
    }

    /** The server's reader, before it decrypts. */
    method EscucharMensaje() returns (r: Option<Bytes>)
      modifies this
      ensures r == Next(old(rest)) && rest == AfterNext(old(rest))
    {
      ghost var s := rest;
      var buffer: Bytes := [];
      while true
        invariant s == buffer + rest && NoPair(buffer)
        decreases |rest|
      {
        var b := ReadByte();
        if b.None? {
          NoPairIs(s);
          return None;
        }
        ghost var before := buffer;
        buffer := buffer + [b.value];
        assert before == buffer[..|buffer| - 1];
        if |buffer| >= 2 && buffer[|buffer| - 2..] == [CR, LF] {
          var line := buffer[..|buffer| - 2];
          LastTwo(buffer);
          assert line + [CR, LF] + rest == s;
          FoundPair(line, rest);
          return Some(line);
        }
        NotLastTwo(buffer);
      }
    }
  }

  lemma NotLastTwo(s: Bytes)
    requires s != [] && NoPair(s[..|s| - 1]) && !(|s| >= 2 && s[|s| - 2..] == [CR, LF])
    ensures NoPair(s)
  {
    var t := s[..|s| - 1];
    forall j | 0 <= j < |s| - 1 ensures !(s[j] == CR && s[j + 1] == LF) {
      if j < |s| - 2 {
        assert s[j] == t[j] && s[j + 1] == t[j + 1];
      } else {
        assert s[j..] == [s[j], s[j + 1]];
      }
    }
  }

  lemma LastTwo(s: Bytes)
    requires |s| >= 2 && s[|s| - 2..] == [CR, LF]
    ensures s[..|s| - 2] + [CR, LF] == s && s[..|s| - 2] + [CR] == s[..|s| - 1]
  {
    assert s == s[..|s| - 2] + s[|s| - 2..];
    assert s[|s| - 2..][0] == CR;
  }

  /** Everything that reading again and again gives. */
  function ReadAll(s: Bytes): seq<Bytes>
    decreases |s|
  {
    if Next(s).None? then [] else [Next(s).value] + ReadAll(AfterNext(s))
  }

  /** Reading gives the pieces, all but the last, which no CR-LF ends. */
  lemma {:induction false} ReadAllIsCut(s: Bytes)
    ensures ReadAll(s) == Cut(s)[..|Cut(s)| - 1]
    decreases |s|
  {
    if FirstPair(s) < |s| {
      ReadAllIsCut(AfterNext(s));
    }
  }

  lemma ReadAllGlue(pieces: seq<Bytes>)
    requires pieces != [] && AllPairFree(pieces)
    ensures ReadAll(Glue(pieces)) == pieces[..|pieces| - 1]
  {
    CutGlue(pieces);
    ReadAllIsCut(Glue(pieces));
  }
}
