/** Text encrypted line by line, over any cipher that can be undone. */
module Crypto {
  import opened Wrappers
  import opened Framing

  /** The cipher works on bytes; `decrypt` fails on what is not an encryption. */
  datatype Cipher = Cipher(encrypt: Bytes -> Bytes, decrypt: Bytes -> Option<Bytes>)

  /** Decrypting undoes encrypting. The empty text may be encrypted to nothing, as the program's cipher
      does, or to a block of padding. */
  ghost predicate Undoes(c: Cipher) {
    forall x: Bytes :: c.decrypt(c.encrypt(x)) == Some(x)
  }

  function EncryptAll(c: Cipher, lines: seq<Bytes>): seq<Bytes> {
    seq(|lines|, i requires 0 <= i < |lines| => c.encrypt(lines[i]))
  }

  /** The bytes on the wire. */
  function Wire(c: Cipher, msg: Bytes): Bytes {
    Glue(EncryptAll(c, Cut(msg)))
  }

  lemma {:induction false} GlueOneMore(pieces: seq<Bytes>, last: Bytes)
    requires pieces != []
    ensures Glue(pieces + [last]) == Glue(pieces) + [CR, LF] + last
  {
    if |pieces| == 1 {
      assert (pieces + [last])[1..] == [last];
    } else {
      assert (pieces + [last])[1..] == pieces[1..] + [last];
      GlueOneMore(pieces[1..], last);
    }
  }

  method EncryptedWithCrlf(c: Cipher, msg: Bytes) returns (buf: Bytes)
    ensures buf == Wire(c, msg)
  {
    var lines := Cut(msg);
    ghost var pieces := EncryptAll(c, lines);
    buf := [];
    for i := 0 to |lines|
      invariant i == 0 ==> buf == []
      invariant 0 < i ==> buf == Glue(pieces[..i]) + if i < |lines| then [CR, LF] else []
    {
      assert pieces[..i + 1] == pieces[..i] + [pieces[i]];
      if i > 0 {
        GlueOneMore(pieces[..i], pieces[i]);
      }
      var encrypted := c.encrypt(lines[i]);
      if i + 1 < |lines| {
        buf := buf + (encrypted + [CR, LF]);
      } else {
        buf := buf + encrypted;
      }
    }
    assert pieces[..|lines|] == pieces;
  }

  // ----- decrypting -----

  /** How `decrypt_with_crlf` cuts: its last byte is not renewed by a delimiter, so after one
      (`stale`) a line feed alone is taken for another. */
  function StaleCut(s: Bytes, stale: bool): (r: seq<Bytes>)
    ensures |r| >= 1
    decreases |s|
  {
    if stale && s != [] && s[0] == LF then [[]] + StaleCut(s[1..], true)
    else
      var i := FirstPair(s);
      if i == |s| then [s] else [s[..i]] + StaleCut(s[i + 2..], true)
  }

  /** The pieces decrypted; an empty last piece stands for nothing. */
  function Decoded(c: Cipher, pieces: seq<Bytes>): Option<Bytes>
    requires pieces != []
  {
    if |pieces| == 1 then if pieces[0] == [] then Some([]) else c.decrypt(pieces[0])
    else
      match c.decrypt(pieces[0])
      case None => None
      case Some(line) =>
        match Decoded(c, pieces[1..])
        case None => None
        case Some(rest) => Some(line + [CR, LF] + rest)
  }

  function Prefixed(text: Bytes, rest: Option<Bytes>): Option<Bytes> {
    match rest
    case None => None
    case Some(r) => Some(text + r)
  }

  /** The text still to come when `buffer` was read of a piece, in front of `rest`. */
  function Pending(c: Cipher, buffer: Bytes, rest: Bytes, stale: bool): Option<Bytes> {
    Decoded(c, StaleCut(buffer + rest, stale))
  }

  /** The state between two bytes: no delimiter in the buffer, and the last byte is that of the
      buffer, or the CR of the delimiter before. */
  predicate Reading(buffer: Bytes, last: byte, stale: bool) {
    && NoPair(buffer)
    && (buffer != [] ==> last == buffer[|buffer| - 1])
    && (buffer == [] ==> last == if stale then CR else 0)
    && (stale && buffer != [] ==> buffer[0] != LF)
  }

  function Chopped(buffer: Bytes): Bytes {
    if buffer == [] then [] else buffer[..|buffer| - 1]
  }

  lemma CutHere(buffer: Bytes, last: byte, rest: Bytes, stale: bool)
    requires Reading(buffer, last, stale) && last == CR && rest != [] && rest[0] == LF
    ensures StaleCut(buffer + rest, stale) == [Chopped(buffer)] + StaleCut(rest[1..], true)
  {
    var s := buffer + rest;
    if buffer == [] {
      assert s == rest;
    } else {
      FirstPairIs(s, |buffer| - 1);
      assert s[..|buffer| - 1] == buffer[..|buffer| - 1];
      assert s[|buffer| + 1..] == rest[1..];
    }
  }

  lemma DecodedFirst(c: Cipher, piece: Bytes, pieces: seq<Bytes>)
    requires pieces != []
    ensures Decoded(c, [piece] + pieces)
         == match c.decrypt(piece) case None => None case Some(line) => Prefixed(line + [CR, LF], Decoded(c, pieces))
  {
    assert ([piece] + pieces)[1..] == pieces;
  }

  lemma PendingHere(c: Cipher, buffer: Bytes, last: byte, rest: Bytes, stale: bool)
    requires Reading(buffer, last, stale) && last == CR && rest != [] && rest[0] == LF
    ensures Pending(c, buffer, rest, stale)
         == match c.decrypt(Chopped(buffer)) case None => None case Some(line) => Prefixed(line + [CR, LF], Pending(c, [], rest[1..], true))
  {
    CutHere(buffer, last, rest, stale);
    DecodedFirst(c, Chopped(buffer), StaleCut(rest[1..], true));
    assert [] + rest[1..] == rest[1..];
  }

  lemma PendingLater(c: Cipher, buffer: Bytes, rest: Bytes, stale: bool)
    requires rest != []
    ensures Pending(c, buffer, rest, stale) == Pending(c, buffer + [rest[0]], rest[1..], stale)
  {
    assert buffer + rest == buffer + [rest[0]] + rest[1..];
  }

  lemma PendingEnd(c: Cipher, buffer: Bytes, last: byte, stale: bool)
    requires Reading(buffer, last, stale)
    ensures Pending(c, buffer, [], stale) == if buffer == [] then Some([]) else c.decrypt(buffer)
  {
    assert buffer + [] == buffer;
    NoPairIs(buffer);
  }

  lemma OneMoreRead(buffer: Bytes, last: byte, stale: bool, b: byte)
    requires Reading(buffer, last, stale) && !(last == CR && b == LF)
    ensures Reading(buffer + [b], b, stale)
  {
  }

  /** The delimiter is reached: the piece is decrypted in front of what comes. */
  lemma PieceDecrypted(c: Cipher, result: Bytes, buffer: Bytes, last: byte, rest: Bytes, stale: bool)
    requires Reading(buffer, last, stale) && last == CR && rest != [] && rest[0] == LF
    ensures c.decrypt(Chopped(buffer)) == None ==> Pending(c, buffer, rest, stale) == None
    ensures c.decrypt(Chopped(buffer)).Some? ==>
      Prefixed(result, Pending(c, buffer, rest, stale))
      == Prefixed(result + (c.decrypt(Chopped(buffer)).value + [CR, LF]), Pending(c, [], rest[1..], true))
  {
    PendingHere(c, buffer, last, rest, stale);
    if c.decrypt(Chopped(buffer)).Some? {
      PrefixedTwice(result, c.decrypt(Chopped(buffer)).value + [CR, LF], Pending(c, [], rest[1..], true));
    }
  }

  /** The loop's state: the text decrypted so far and what is still to come make the whole. */
  predicate Decrypting(c: Cipher, goal: Option<Bytes>, result: Bytes, buffer: Bytes, last: byte, rest: Bytes, stale: bool) {
    Reading(buffer, last, stale) && goal == Prefixed(result, Pending(c, buffer, rest, stale))
  }

  lemma StartDecrypting(c: Cipher, msg: Bytes)
    ensures Decrypting(c, Decoded(c, StaleCut(msg, false)), [], [], 0, msg, false)
  {
    assert [] + msg == msg;
    PrefixedNothing(Decoded(c, StaleCut(msg, false)));
  }

  lemma DelimiterDecrypted(c: Cipher, goal: Option<Bytes>, result: Bytes, buffer: Bytes, last: byte, rest: Bytes, stale: bool)
    requires Decrypting(c, goal, result, buffer, last, rest, stale) && last == CR && rest != [] && rest[0] == LF
    ensures c.decrypt(Chopped(buffer)) == None ==> goal == None
    ensures c.decrypt(Chopped(buffer)).Some? ==>
      Decrypting(c, goal, result + (c.decrypt(Chopped(buffer)).value + [CR, LF]), [], CR, rest[1..], true)
  {
    PieceDecrypted(c, result, buffer, last, rest, stale);
  }

  lemma ByteRead(c: Cipher, goal: Option<Bytes>, result: Bytes, buffer: Bytes, last: byte, rest: Bytes, stale: bool)
    requires Decrypting(c, goal, result, buffer, last, rest, stale) && rest != [] && !(last == CR && rest[0] == LF)
    ensures Decrypting(c, goal, result, buffer + [rest[0]], rest[0], rest[1..], stale)
  {
    PendingLater(c, buffer, rest, stale);
    OneMoreRead(buffer, last, stale, rest[0]);
  }

  lemma EndDecrypting(c: Cipher, goal: Option<Bytes>, result: Bytes, buffer: Bytes, last: byte, stale: bool)
    requires Decrypting(c, goal, result, buffer, last, [], stale)
    ensures goal == if buffer == [] then Some(result) else Prefixed(result, c.decrypt(buffer))
  {
    PendingEnd(c, buffer, last, stale);
    assert result + [] == result;
  }

  method DecryptWithCrlf(c: Cipher, msg: Bytes) returns (r: Option<Bytes>)
    ensures r == Decoded(c, StaleCut(msg, false))
  {
    var result: Bytes := [];
    var buffer: Bytes := [];
    var last: byte := 0;
    var i := 0;
    ghost var stale := false;
    ghost var goal := Decoded(c, StaleCut(msg, false));
    StartDecrypting(c, msg);
    assert msg[0..] == msg;
    while i < |msg|
      invariant i <= |msg| && Decrypting(c, goal, result, buffer, last, msg[i..], stale)
    {
      var b := msg[i];
      ghost var rest := msg[i..];
      assert rest[0] == b && rest[1..] == msg[i + 1..];
      i := i + 1;
      if last == CR && b == LF {
        DelimiterDecrypted(c, goal, result, buffer, last, rest, stale);
        var line := c.decrypt(Chopped(buffer));
        if line.None? {
          return None;
        }
        result := result + (line.value + [CR, LF]);
        buffer, stale := [], true;
        continue;
      }
      ByteRead(c, goal, result, buffer, last, rest, stale);
      buffer := buffer + [b];
      last := b;
    }
    EndDecrypting(c, goal, result, buffer, last, stale);
    if buffer != [] {
      var line := c.decrypt(buffer);
      if line.None? {
        return None;
      }
      result := result + line.value;
    }
    r := Some(result);
  }

  lemma PrefixedNothing(rest: Option<Bytes>)
    ensures Prefixed([], rest) == rest
  {
    if rest.Some? {
      assert [] + rest.value == rest.value;
    }
  }

  lemma PrefixedTwice(a: Bytes, b: Bytes, rest: Option<Bytes>)
    ensures Prefixed(a, Prefixed(b, rest)) == Prefixed(a + b, rest)
  {
    if rest.Some? {
      assert a + (b + rest.value) == a + b + rest.value;
    }
  }

  // ----- when the pieces are found again -----

  predicate NoneStartsWithLf(pieces: seq<Bytes>) {
    forall i :: 0 <= i < |pieces| ==> pieces[i] != [] ==> pieces[i][0] != LF
  }

  predicate StartsWithLf(s: Bytes) {
    s != [] && s[0] == LF
  }

  /** A delimiter is always found, and what comes before it is one piece only if it holds no delimiter
      and does not look like one. */
  lemma {:induction false} StaleCutBefore(a: Bytes, b: Bytes, stale: bool)
    ensures var n := |StaleCut(a + [CR, LF] + b, stale)|;
      && n >= 1 + |StaleCut(b, true)|
      && (n == 1 + |StaleCut(b, true)| <==> PairFree(a) && !(stale && StartsWithLf(a)))
    decreases |a|
  {
    var s := a + [CR, LF] + b;
    if stale && StartsWithLf(a) {
      assert s[1..] == a[1..] + [CR, LF] + b;
      StaleCutBefore(a[1..], b, true);
    } else {
      var i := FirstPair(s);
      PairBefore(a, b);
      if PairFree(a) {
        FirstPairOf(a, b);
      } else {
        assert s[i + 2..] == a[i + 2..] + [CR, LF] + b;
        StaleCutBefore(a[i + 2..], b, true);
      }
    }
  }

  lemma PairBefore(a: Bytes, b: Bytes)
    ensures var i := FirstPair(a + [CR, LF] + b);
      if PairFree(a) then i == |a| else i + 2 <= |a|
  {
    var s := a + [CR, LF] + b;
    if PairFree(a) {
      FirstPairOf(a, b);
    } else {
      var k := FirstPair(a);
      assert s[k] == a[k] && s[k + 1] == a[k + 1];
      assert s[|a|] == CR;
    }
  }

  lemma StaleCutLast(s: Bytes, stale: bool)
    ensures |StaleCut(s, stale)| == 1 <==> PairFree(s) && !(stale && StartsWithLf(s))
  {
  }

  /** At least as many pieces are found as were glued, and exactly as many if none holds a CR-LF and none
      after a delimiter starts with a line feed. */
  lemma {:induction false} StaleCutCounts(pieces: seq<Bytes>, stale: bool)
    requires pieces != []
    ensures |StaleCut(Glue(pieces), stale)| >= |pieces|
    ensures |StaleCut(Glue(pieces), stale)| == |pieces|
       <==> AllPairFree(pieces) && NoneStartsWithLf(pieces[if stale then 0 else 1..])
    decreases pieces
  {
    if |pieces| == 1 {
      StaleCutLast(pieces[0], stale);
    } else {
      var rest := pieces[1..];
      StaleCutCounts(rest, true);
      StaleCutBefore(pieces[0], Glue(rest), stale);
      assert AllPairFree(pieces) <==> PairFree(pieces[0]) && AllPairFree(rest) by {
        HeadRest(pieces);
        assert forall i :: 1 <= i < |pieces| ==> pieces[i] == rest[i - 1];
      }
      NoneStartsHead(pieces);
    }
  }

  lemma NoneStartsHead(pieces: seq<Bytes>)
    requires pieces != []
    ensures NoneStartsWithLf(pieces[0..]) <==> !StartsWithLf(pieces[0]) && NoneStartsWithLf(pieces[1..])
    ensures pieces[1..][0..] == pieces[1..]
  {
    assert forall i :: 1 <= i < |pieces| ==> pieces[i] == pieces[1..][i - 1];
  }

  /** Pieces that are found again; the first may start with a line feed when it is the first of all. */
  predicate Findable(pieces: seq<Bytes>, stale: bool) {
    pieces != [] && AllPairFree(pieces) && NoneStartsWithLf(pieces[if stale then 0 else 1..])
  }

  lemma StaleCutFirst(a: Bytes, b: Bytes, stale: bool)
    requires PairFree(a) && !(stale && StartsWithLf(a))
    ensures StaleCut(a + [CR, LF] + b, stale) == [a] + StaleCut(b, true)
  {
    FirstPairOf(a, b);
    assert (a + [CR, LF] + b)[0] == if a == [] then CR else a[0];
  }

  lemma {:induction false} StaleCutGlue(pieces: seq<Bytes>, stale: bool)
    requires Findable(pieces, stale)
    ensures StaleCut(Glue(pieces), stale) == pieces
    decreases pieces
  {
    NoneStartsHead(pieces);
    if |pieces| > 1 {
      HeadRest(pieces);
      StaleCutGlue(pieces[1..], true);
      StaleCutFirst(pieces[0], Glue(pieces[1..]), stale);
    }
  }

  /** For every cipher: the encrypted lines are found again exactly when none of them holds a CR-LF and none
      after the first starts with a line feed. */
  lemma LinesFoundExact(c: Cipher, msg: Bytes)
    ensures var pieces := EncryptAll(c, Cut(msg));
      StaleCut(Wire(c, msg), false) == pieces <==> AllPairFree(pieces) && NoneStartsWithLf(pieces[1..])
  {
    var pieces := EncryptAll(c, Cut(msg));
    StaleCutCounts(pieces, false);
    if AllPairFree(pieces) && NoneStartsWithLf(pieces[1..]) {
      StaleCutGlue(pieces, false);
    }
  }

  // ----- when the text comes back -----

  function LastLine(msg: Bytes): Bytes {
    Cut(msg)[|Cut(msg)| - 1]
  }

  /** Nothing stands for an empty last line only. */
  predicate EndsWell(c: Cipher, last: Bytes) {
    c.encrypt(last) == [] ==> last == []
  }

  lemma {:induction false} DecodedEncrypted(c: Cipher, lines: seq<Bytes>)
    requires Undoes(c) && lines != []
    ensures Decoded(c, EncryptAll(c, lines)) == Some(Glue(lines)) <==> EndsWell(c, lines[|lines| - 1])
  {
    if |lines| > 1 {
      var rest := lines[1..];
      DecodedEncrypted(c, rest);
      assert EncryptAll(c, lines)[1..] == EncryptAll(c, rest);
      var head := lines[0] + [CR, LF];
      var got := Decoded(c, EncryptAll(c, rest));
      if got.Some? && head + got.value == head + Glue(rest) {
        SameTails(head, got.value, Glue(rest));
      }
    }
  }

  lemma SameTails(a: Bytes, b: Bytes, c: Bytes)
    requires a + b == a + c
    ensures b == c
  {
    assert (a + b)[|a|..] == b && (a + c)[|a|..] == c;
  }

  /** A delimiter in a text ends a line. */
  lemma {:induction false} CutAfter(a: Bytes, b: Bytes)
    ensures |Cut(a + [CR, LF] + b)| >= 1 + |Cut(b)|
    decreases |a|
  {
    PairBefore(a, b);
    if PairFree(a) {
      FirstPairOf(a, b);
    } else {
      var s := a + [CR, LF] + b;
      var i := FirstPair(s);
      assert s[i + 2..] == a[i + 2..] + [CR, LF] + b;
      CutAfter(a[i + 2..], b);
    }
  }

  /** Every piece that is decrypted leaves a line. */
  lemma {:induction false} DecodedLines(c: Cipher, pieces: seq<Bytes>)
    requires pieces != [] && Decoded(c, pieces).Some?
    ensures |Cut(Decoded(c, pieces).value)| >= |pieces|
  {
    if |pieces| > 1 {
      DecodedLines(c, pieces[1..]);
      CutAfter(c.decrypt(pieces[0]).value, Decoded(c, pieces[1..]).value);
    }
  }

  /** For every cipher that can be undone: decrypting gives back the text exactly when none of the
      encrypted lines holds a CR-LF, none after the first starts with a line feed, and the last one is not
      nothing in place of something. */
  lemma DecryptUndoesExact(c: Cipher, msg: Bytes)
    requires Undoes(c)
    ensures Decoded(c, StaleCut(Wire(c, msg), false)) == Some(msg) <==>
      && AllPairFree(EncryptAll(c, Cut(msg))) && NoneStartsWithLf(EncryptAll(c, Cut(msg))[1..])
      && EndsWell(c, LastLine(msg))
  {
    var pieces := EncryptAll(c, Cut(msg));
    CutPieces(msg);
    DecodedEncrypted(c, Cut(msg));
    LinesFoundExact(c, msg);
    StaleCutCounts(pieces, false);
    if Decoded(c, StaleCut(Wire(c, msg), false)) == Some(msg) {
      DecodedLines(c, StaleCut(Wire(c, msg), false));
    }
  }

  /** Decrypting undoes encrypting when the lines are found. */
  lemma DecryptUndoesEncrypt(c: Cipher, msg: Bytes)
    requires Undoes(c) && EndsWell(c, LastLine(msg))
    requires AllPairFree(EncryptAll(c, Cut(msg))) && NoneStartsWithLf(EncryptAll(c, Cut(msg))[1..])
    ensures Decoded(c, StaleCut(Wire(c, msg), false)) == Some(msg)
  {
    DecryptUndoesExact(c, msg);
  }

  /** A cipher that encrypts the empty text to nothing and puts a line feed in front of any other. */
  function Marking(): Cipher {
    Cipher((x: Bytes) => if x == [] then [] else [LF] + x,
           (y: Bytes) => if y == [] then Some([]) else if y[0] == LF && |y| > 1 then Some(y[1..]) else None)
  }

  lemma MarkingUndoes()
    ensures Undoes(Marking()) && Marking().encrypt([]) == []
  {
    var c := Marking();
    forall x: Bytes ensures c.decrypt(c.encrypt(x)) == Some(x) {
      if x != [] {
        assert ([LF] + x)[1..] == x;
      }
    }
  }

  /** With it, two lines that are not empty do not come back. */
  lemma DecryptFails(a: Bytes, b: Bytes)
    requires PairFree(a) && PairFree(b) && b != []
    ensures var msg := a + [CR, LF] + b; Decoded(Marking(), StaleCut(Wire(Marking(), msg), false)) != Some(msg)
  {
    var msg := a + [CR, LF] + b;
    MarkingUndoes();
    TwoLines(a, b);
    var pieces := EncryptAll(Marking(), Cut(msg));
    assert pieces[1..][0] == [LF] + b;
    DecryptUndoesExact(Marking(), msg);
  }

  lemma TwoLines(a: Bytes, b: Bytes)
    requires PairFree(a) && PairFree(b)
    ensures Cut(a + [CR, LF] + b) == [a, b]
  {
    CutFirst(a, b);
  }

  // ----- one message after another -----

  lemma {:induction false} CutJoins(a: Bytes, b: Bytes)
    ensures Cut(a + [CR, LF] + b) == Cut(a) + Cut(b)
    decreases |a|
  {
    if PairFree(a) {
      CutFirst(a, b);
    } else {
      var i := FirstPair(a);
      var head, tail := a[..i], a[i + 2..];
      HeadFree(a);
      assert a + [CR, LF] + b == head + [CR, LF] + (tail + [CR, LF] + b);
      CutFirst(head, tail + [CR, LF] + b);
      CutJoins(tail, b);
    }
  }

  lemma HeadFree(a: Bytes)
    requires !PairFree(a)
    ensures var i := FirstPair(a); PairFree(a[..i]) && a == a[..i] + [CR, LF] + a[i + 2..]
  {
    var i := FirstPair(a);
    assert a[i] == CR && a[i + 1] == LF;
    NoPairIs(a[..i]);
  }

  lemma {:induction false} GlueJoins(a: seq<Bytes>, b: seq<Bytes>)
    requires a != [] && b != []
    ensures Glue(a + b) == Glue(a) + [CR, LF] + Glue(b)
  {
    HeadRest(a + b);
    if |a| == 1 {
      assert (a + b)[1..] == b;
    } else {
      assert (a + b)[1..] == a[1..] + b;
      GlueJoins(a[1..], b);
      var x, y, z := a[0] + [CR, LF], Glue(a[1..]), [CR, LF] + Glue(b);
      assert x + (y + z) == (x + y) + z;
      assert y + [CR, LF] + Glue(b) == y + z;
      HeadRest(a);
    }
  }

  lemma WireJoins(c: Cipher, msg: Bytes, next: Bytes)
    ensures Wire(c, msg + [CR, LF] + next) == Wire(c, msg) + [CR, LF] + Wire(c, next)
  {
    CutJoins(msg, next);
    assert EncryptAll(c, Cut(msg) + Cut(next)) == EncryptAll(c, Cut(msg)) + EncryptAll(c, Cut(next));
    GlueJoins(EncryptAll(c, Cut(msg)), EncryptAll(c, Cut(next)));
  }

  /** The bytes of a message that ends a line, followed by those of another, are those of both together
      exactly when the cipher makes nothing of the empty text: then a connection can carry many. */
  lemma WiresJoinExact(c: Cipher, msg: Bytes, next: Bytes)
    ensures Wire(c, msg + [CR, LF] + []) + Wire(c, next) == Wire(c, msg + [CR, LF] + next) <==> c.encrypt([]) == []
  {
    WireJoins(c, msg, []);
    WireJoins(c, msg, next);
    var e := c.encrypt([]);
    assert Cut([]) == [[]] && Wire(c, []) == e;
    var l, r := Wire(c, msg) + [CR, LF] + e + Wire(c, next), Wire(c, msg) + [CR, LF] + Wire(c, next);
    assert |l| == |r| + |e|;
    if e == [] {
      assert l == r;
    }
  }

  /** With such a cipher two messages written one after the other are decrypted to both of them, exactly
      when the lines are found. */
  lemma TwoMessagesDecrypted(c: Cipher, msg: Bytes, next: Bytes)
    requires Undoes(c) && c.encrypt([]) == []
    ensures var both := msg + [CR, LF] + next;
      Decoded(c, StaleCut(Wire(c, msg + [CR, LF] + []) + Wire(c, next), false)) == Some(both) <==>
        AllPairFree(EncryptAll(c, Cut(both))) && NoneStartsWithLf(EncryptAll(c, Cut(both))[1..])
  {
    var both := msg + [CR, LF] + next;
    WiresJoinExact(c, msg, next);
    DecryptUndoesExact(c, both);
    assert c.decrypt(c.encrypt(LastLine(both))) == Some(LastLine(both)) && c.decrypt(c.encrypt([])) == Some([]);
  }

  lemma EncryptPrefix(c: Cipher, lines: seq<Bytes>, n: nat)
    requires n <= |lines|
    ensures EncryptAll(c, lines)[..n] == EncryptAll(c, lines[..n])
  {
  }

  /** The readers find the ended lines of the same bytes whenever no encryption holds a CR-LF: a line
      feed at the start of one does not disturb them. */
  lemma ReadersFindLines(c: Cipher, msg: Bytes)
    requires AllPairFree(EncryptAll(c, Cut(msg)))
    ensures ReadAll(Wire(c, msg)) == EncryptAll(c, Cut(msg)[..|Cut(msg)| - 1])
  {
    ReadAllGlue(EncryptAll(c, Cut(msg)));
    EncryptPrefix(c, Cut(msg), |Cut(msg)| - 1);
  }

  /** `decrypt_with_crlf` cuts as the readers do exactly when no piece after the first starts with
      a line feed. */
  lemma CutsAgreeExact(s: Bytes)
    ensures StaleCut(s, false) == Cut(s) <==> NoneStartsWithLf(Cut(s)[1..])
  {
    CutPieces(s);
    StaleCutCounts(Cut(s), false);
    if NoneStartsWithLf(Cut(s)[1..]) {
      StaleCutGlue(Cut(s), false);
    }
  }
}
