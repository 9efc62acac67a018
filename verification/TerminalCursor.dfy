/** The terminal cursor: two 16-bit counters moved once per chunk of output. */
module TerminalCursor {
  newtype byte = x: int | 0 <= x < 256

  type Bytes = seq<byte>

  const LF: byte := 10

  const WIDTH: nat := 0x1_0000

  type uint16 = x: nat | x < 0x1_0000

  datatype Cursor = Cursor(row: uint16, col: uint16)

  function Wrap(n: nat): uint16 { n % WIDTH }

  /** strings.Count(data, "\n") */
  function Newlines(data: Bytes): nat {
    if data == [] then 0 else Newlines(data[..|data| - 1]) + if data[|data| - 1] == LF then 1 else 0
  }

  /** strings.LastIndex(data, "\n") */
  function LastNewline(data: Bytes): (i: int)
    ensures -1 <= i < |data|
    ensures i >= 0 ==> data[i] == LF
    ensures forall j | i < j < |data| :: data[j] != LF
  {
    if data == [] then -1
    else if data[|data| - 1] == LF then |data| - 1
    else LastNewline(data[..|data| - 1])
  }

  /** The new cursor after one chunk, in the actor's modular arithmetic. */
  function AdvanceCursor(c: Cursor, data: Bytes): Cursor {
    var row := Wrap(c.row + Wrap(Newlines(data)));
    var idx := LastNewline(data);
    if idx >= 0 then Cursor(row, Wrap(|data| - idx - 1))
    else Cursor(row, Wrap(c.col + Wrap(|data|)))
  }

  /** Where the whole buffer leaves the cursor. */
  function CursorOf(buffer: Bytes): Cursor {
    Cursor(Wrap(Newlines(buffer)), Wrap(|buffer| - LastNewline(buffer) - 1))
  }

  /** A terminal that looks at one byte at a time. */
  function ByteByByte(c: Cursor, data: Bytes): Cursor {
    if data == [] then c
    else
      var before := ByteByByte(c, data[..|data| - 1]);
      if data[|data| - 1] == LF then Cursor(Wrap(before.row + 1), 0) else Cursor(before.row, Wrap(before.col + 1))
  }

  lemma WrapOnce(a: nat, b: nat)
    ensures Wrap(0) == 0 && Wrap(Wrap(a) + b) == Wrap(a + b) == Wrap(a + Wrap(b))
  {
  }

  lemma WrapSum(a: nat, b: nat, c: nat)
    ensures Wrap(Wrap(a + Wrap(b)) + c) == Wrap(a + Wrap(b + c))
  {
    WrapOnce(a, b);
    WrapOnce(a + b, c);
    WrapOnce(a, b + c);
  }

  /** One byte more of a chunk. */
  lemma RowOfOneMore(c: Cursor, data: Bytes, last: byte)
    ensures AdvanceCursor(c, data + [last]).row ==
            if last == LF then Wrap(AdvanceCursor(c, data).row + 1) else AdvanceCursor(c, data).row
  {
    assert (data + [last])[..|data|] == data;
    WrapSum(c.row, Newlines(data), 1);
  }

  lemma ColOfOneMore(c: Cursor, data: Bytes, last: byte)
    ensures AdvanceCursor(c, data + [last]).col == if last == LF then 0 else Wrap(AdvanceCursor(c, data).col + 1)
  {
    assert (data + [last])[..|data|] == data;
    var n, i := |data|, LastNewline(data);
    if last != LF {
      assert LastNewline(data + [last]) == i;
      if i >= 0 { WrapOnce(n - i - 1, 1); } else { WrapSum(c.col, n, 1); }
    }
  }

  lemma {:induction false} ChunkIsByteByByte(c: Cursor, data: Bytes)
    ensures AdvanceCursor(c, data) == ByteByByte(c, data)
  {
    if data != [] {
      var init, last := data[..|data| - 1], data[|data| - 1];
      assert data == init + [last];
      ChunkIsByteByByte(c, init);
      hide AdvanceCursor;
      RowOfOneMore(c, init, last);
      ColOfOneMore(c, init, last);
    }
  }

  lemma {:induction false} BytesCompose(c: Cursor, a: Bytes, b: Bytes)
    ensures ByteByByte(c, a + b) == ByteByByte(ByteByByte(c, a), b)
  {
    if b == [] {
      assert a + b == a;
    } else {
      var n := |b| - 1;
      assert (a + b)[..|a + b| - 1] == a + b[..n];
      BytesCompose(c, a, b[..n]);
    }
  }

  /** How output was cut into chunks cannot be seen in the cursor. */
  lemma ChunkingIsInvisible(c: Cursor, a: Bytes, b: Bytes)
    ensures AdvanceCursor(AdvanceCursor(c, a), b) == AdvanceCursor(c, a + b)
  {
    ChunkIsByteByByte(c, a);
    ChunkIsByteByByte(AdvanceCursor(c, a), b);
    ChunkIsByteByByte(c, a + b);
    BytesCompose(c, a, b);
  }

  lemma CursorOfWhole(buffer: Bytes)
    ensures CursorOf(buffer) == AdvanceCursor(Cursor(0, 0), buffer)
  {
    WrapOnce(0, Newlines(buffer));
    WrapOnce(0, |buffer|);
  }

  lemma CursorFollowsBuffer(buffer: Bytes, data: Bytes)
    ensures AdvanceCursor(CursorOf(buffer), data) == CursorOf(buffer + data)
  {
    CursorOfWhole(buffer);
    CursorOfWhole(buffer + data);
    ChunkingIsInvisible(Cursor(0, 0), buffer, data);
  }
}
