/** Cutting a byte stream at a delimiter: the reading side of both the line-based journal and
    the NUL-terminated message pipe. */
module Framing {

  type Byte = b: int | 0 <= b < 256

  /** Whole pieces in order, and the unterminated remainder. */
  datatype Cutting = Cutting(pieces: seq<seq<Byte>>, rest: seq<Byte>)

  function IndexOf(data: seq<Byte>, d: Byte): (i: nat)
    requires d in data
    ensures i < |data| && data[i] == d
    ensures forall k :: 0 <= k < i ==> data[k] != d
  {
    if data[0] == d then 0 else IndexOf(data[1..], d) + 1
  }

  function Push(c: Cutting, b: Byte, d: Byte): Cutting
  {
    if b == d then Cutting(c.pieces + [c.rest], []) else Cutting(c.pieces, c.rest + [b])
  }

  function Cut(data: seq<Byte>, d: Byte): Cutting
  {
    if data == [] then Cutting([], []) else Push(Cut(data[..|data| - 1], d), data[|data| - 1], d)
  }

  /** The bytes of the terminated pieces. */
  function Join(pieces: seq<seq<Byte>>, d: Byte): seq<Byte>
  {
    if pieces == [] then [] else Join(pieces[..|pieces| - 1], d) + pieces[|pieces| - 1] + [d]
  }

  predicate Free(s: seq<Byte>, d: Byte)
  {
    forall k :: 0 <= k < |s| ==> s[k] != d
  }

  lemma CutPush(data: seq<Byte>, b: Byte, d: Byte)
    ensures Cut(data + [b], d) == Push(Cut(data, d), b, d)
  {
    assert (data + [b])[..|data|] == data;
  }

  lemma FreeFront(data: seq<Byte>, d: Byte)
    requires Free(data, d) && data != []
    ensures Free(data[..|data| - 1], d) && data[|data| - 1] != d
  {
  }

  lemma FrontAndLast(data: seq<Byte>)
    requires data != []
    ensures data[..|data| - 1] + [data[|data| - 1]] == data
  {
  }

  lemma {:induction false} CutFree(data: seq<Byte>, d: Byte)
    requires Free(data, d)
    ensures Cut(data, d).pieces == [] && Cut(data, d).rest == data
  {
    if data != [] {
      FreeFront(data, d);
      CutFree(data[..|data| - 1], d);
      FrontAndLast(data);
    }
  }

  /** A stream may be cut in two goes, carrying the remainder over. */
  lemma {:induction false} CutAppend(a: seq<Byte>, b: seq<Byte>, d: Byte)
    ensures var tail := Cut(Cut(a, d).rest + b, d);
      Cut(a + b, d) == Cutting(Cut(a, d).pieces + tail.pieces, tail.rest)
  {
    var c := Cut(a, d);
    if b == [] {
      assert a + b == a && c.rest + b == c.rest;
      CutFreePieces(a, d);
      CutFree(c.rest, d);
    } else {
      var front, x := b[..|b| - 1], b[|b| - 1];
      CutAppend(a, front, d);
      assert a + b == (a + front) + [x];
      CutPush(a + front, x, d);
      assert c.rest + b == (c.rest + front) + [x];
      CutPush(c.rest + front, x, d);
    }
  }

  lemma CutTerminated(piece: seq<Byte>, data: seq<Byte>, d: Byte)
    requires Free(piece, d)
    ensures Cut(piece + [d] + data, d) == Cutting([piece] + Cut(data, d).pieces, Cut(data, d).rest)
  {
    CutFree(piece, d);
    CutPush(piece, d, d);
    CutOneMore(piece + [d], piece, data, d);
  }

  /** A stream whose first piece has just ended. */
  lemma CutOneMore(head: seq<Byte>, piece: seq<Byte>, data: seq<Byte>, d: Byte)
    requires Cut(head, d) == Cutting([] + [piece], [])
    ensures Cut(head + data, d) == Cutting([piece] + Cut(data, d).pieces, Cut(data, d).rest)
  {
    CutAppend(head, data, d);
    assert [] + data == data && [] + [piece] == [piece];
  }

  lemma JoinPush(pieces: seq<seq<Byte>>, piece: seq<Byte>, d: Byte)
    ensures Join(pieces + [piece], d) == Join(pieces, d) + piece + [d]
  {
    assert (pieces + [piece])[..|pieces|] == pieces;
  }

  /** Cutting forgets nothing: joining the pieces and the rest gives the stream back. */
  lemma {:induction false} CutSound(data: seq<Byte>, d: Byte)
    ensures Join(Cut(data, d).pieces, d) + Cut(data, d).rest == data
  {
    if data != [] {
      var front, b := data[..|data| - 1], data[|data| - 1];
      CutSound(front, d);
      FrontAndLast(data);
      JoinPushed(Cut(front, d), b, d);
    }
  }

  lemma JoinPushed(c: Cutting, b: Byte, d: Byte)
    ensures Join(Push(c, b, d).pieces, d) + Push(c, b, d).rest == (Join(c.pieces, d) + c.rest) + [b]
  {
    if b == d {
      JoinPush(c.pieces, c.rest, d);
    }
  }

  lemma {:induction false} CutFreePieces(data: seq<Byte>, d: Byte)
    ensures Free(Cut(data, d).rest, d)
    ensures forall i :: 0 <= i < |Cut(data, d).pieces| ==> Free(Cut(data, d).pieces[i], d)
  {
    if data != [] {
      CutFreePieces(data[..|data| - 1], d);
    }
  }

  /** Joining and cutting are inverse on delimiter-free pieces. */
  lemma CutJoin(pieces: seq<seq<Byte>>, rest: seq<Byte>, d: Byte)
    requires Free(rest, d) && forall i :: 0 <= i < |pieces| ==> Free(pieces[i], d)
    ensures Cut(Join(pieces, d) + rest, d) == Cutting(pieces, rest)
  {
    if pieces == [] {
      CutFree(rest, d);
      assert Join(pieces, d) + rest == rest;
    } else {
      CutJoined(pieces, d);
      CutAppendTorn(Join(pieces, d), rest, d);
    }
  }

  lemma {:induction false} CutJoined(pieces: seq<seq<Byte>>, d: Byte)
    requires forall i :: 0 <= i < |pieces| ==> Free(pieces[i], d)
    ensures Cut(Join(pieces, d), d) == Cutting(pieces, [])
  {
    if pieces != [] {
      var front, last := pieces[..|pieces| - 1], pieces[|pieces| - 1];
      CutJoined(front, d);
      CutAppendLine(Join(front, d), last, d);
      JoinLine(pieces, d);
    }
  }

  lemma JoinLine(pieces: seq<seq<Byte>>, d: Byte)
    requires pieces != []
    ensures Join(pieces, d) == Join(pieces[..|pieces| - 1], d) + (pieces[|pieces| - 1] + [d])
    ensures pieces[..|pieces| - 1] + [pieces[|pieces| - 1]] == pieces
  {
    var n := |pieces| - 1;
    Regroup(Join(pieces[..n], d), pieces[n], [d]);
    assert pieces == pieces[..n] + [pieces[n]];
  }

  lemma Regroup(a: seq<Byte>, b: seq<Byte>, c: seq<Byte>)
    ensures a + b + c == a + (b + c)
  {
  }

  /** One terminated line appended at a line end is one more piece. */
  lemma CutAppendLine(a: seq<Byte>, line: seq<Byte>, d: Byte)
    requires Cut(a, d).rest == [] && Free(line, d)
    ensures Cut(a + (line + [d]), d) == Cutting(Cut(a, d).pieces + [line], [])
  {
    CutAppend(a, line + [d], d);
    assert [] + (line + [d]) == line + [d] + [];
    CutTerminated(line, [], d);
  }

  /** A part of a line appended at a line end adds no piece. */
  lemma CutAppendTorn(a: seq<Byte>, part: seq<Byte>, d: Byte)
    requires Cut(a, d).rest == [] && Free(part, d)
    ensures Cut(a + part, d) == Cutting(Cut(a, d).pieces, part)
  {
    CutAppend(a, part, d);
    CutFree(part, d);
    assert [] + part == part;
  }
}
