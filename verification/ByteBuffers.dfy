/** The bounded byte FIFO: a fixed array, a read cursor and a write cursor. */
module ByteBuffers {

  newtype byte = x: int | 0 <= x < 256

  /** What a buffer holds, as a value: the unsent bytes and the cell they start at. */
  datatype Buffer = Buffer(capacity: nat, start: nat, data: seq<byte>) {

    /** Both cursors lie inside the storage, and an empty buffer has them at zero. */
    predicate Valid() {
      && start + |data| <= capacity
      && (data == [] ==> start == 0)
    }

    /** Free cells behind the write cursor; cells freed at the front do not count. */
    function Writable(): nat
      requires Valid()
    {
      capacity - start - |data|
    }

    function Written(bytes: seq<byte>): Buffer {
      this.(data := data + bytes)
    }

    function Consumed(count: nat): Buffer
      requires count <= |data|
    {
      Buffer(capacity, if count == |data| then 0 else start + count, data[count..])
    }

    function Compacted(): Buffer {
      if start + |data| == capacity && start > 0 then this.(start := 0) else this
    }
  }

  /** After compaction a buffer refuses bytes only when all of its cells hold unsent data. */
  lemma CompactedIsTight(b: Buffer)
    requires b.Valid()
    ensures b.Compacted().Valid() && b.Compacted().data == b.data
    ensures b.Compacted().Writable() == 0 <==> |b.data| == b.capacity
    ensures b.Compacted().Writable() >= b.Writable()
  {
    if b.start > 0 {
      assert b.data != [];
    }
  }

  class ByteBuffer {
    const storage: array<byte>
    var readIndex: nat
    var writeIndex: nat

    ghost predicate Valid()
      reads this
    {
      && readIndex <= writeIndex <= storage.Length
      && (readIndex == writeIndex ==> readIndex == 0)
    }

    ghost function View(): (b: Buffer)
      requires Valid()
      reads this, storage
      ensures b.Valid()
    {
      Buffer(storage.Length, readIndex, storage[readIndex..writeIndex])
    }

    constructor (capacity: nat)
      ensures Valid() && fresh(storage)
      ensures View() == Buffer(capacity, 0, [])
    {
      storage := new byte[capacity];
      readIndex, writeIndex := 0, 0;
    }

    function ReadableBytes(): (n: nat)
      requires Valid()
      reads this, storage
      ensures n == |View().data|
    {
      writeIndex - readIndex
    }

    function WritableBytes(): (n: nat)
      requires Valid()
      reads this, storage
      ensures n == View().Writable()
    {
      storage.Length - writeIndex
    }

    predicate Empty()
      requires Valid()
      reads this, storage
      ensures Empty() <==> View().data == []
    {
      ReadableBytes() == 0
    }

    /** The first `count` unsent bytes, which is what send() sees behind readData(). */
    method Peek(count: nat) returns (bytes: seq<byte>)
      requires Valid() && count <= ReadableBytes()
      ensures bytes == View().data[..count]
    {
      bytes := storage[readIndex..readIndex + count];
    }

    /** recv() filling the cells behind writeData(): nothing readable changes yet. */
    method Fill(bytes: seq<byte>)
      requires Valid() && |bytes| <= WritableBytes()
      modifies storage
      ensures View() == old(View())
      ensures storage[writeIndex..writeIndex + |bytes|] == bytes
    {
      forall k | 0 <= k < |bytes| {
        storage[writeIndex + k] := bytes[k];
      }
    }

    method HasWritten(count: nat)
      requires Valid() && count <= WritableBytes()
      modifies this`writeIndex
      ensures Valid()
      ensures View() == old(View()).Written(storage[old(writeIndex)..old(writeIndex) + count])
    {
      writeIndex := writeIndex + count;
    }

    /** recv() delivered `bytes`: they are in their cells and the write cursor is behind them. */
    method Receive(bytes: seq<byte>)
      requires Valid() && |bytes| <= WritableBytes()
      modifies this, storage
      ensures Valid()
      ensures View() == old(View()).Written(bytes)
    {
      Fill(bytes);
      HasWritten(|bytes|);
    }

    method Consume(count: nat)
      requires Valid() && count <= ReadableBytes()
      modifies this
      ensures Valid()
      ensures View() == old(View()).Consumed(count)
    {
      readIndex := readIndex + count;
      if readIndex == writeIndex {
        readIndex := 0;
        writeIndex := 0;
      }
    }

    /** Slides the unsent bytes to the front, left to right within the one array. */
    method MakeWritable()
      requires Valid()
      modifies this, storage
      ensures Valid()
      ensures View() == old(View()).Compacted()
    {
      if WritableBytes() == 0 && readIndex > 0 {
        var length := ReadableBytes();
        for i := 0 to length
          invariant readIndex == old(readIndex) && writeIndex == old(writeIndex)
          invariant forall k :: 0 <= k < i ==> storage[k] == old(storage[readIndex + k])
          invariant forall k :: i <= k < storage.Length ==> storage[k] == old(storage[k])
        {
          storage[i] := storage[readIndex + i];
        }
        readIndex := 0;
        writeIndex := length;
        assert storage[..length] == old(storage[readIndex..writeIndex]);
      }
    }
  }
}
