// Reading a file to encrypt it: a browser file whose asynchronous reads may bring more than
// the caller's buffer holds, and the loop that gathers the plaintext.

module PlaintextReader {
  import opened Base
  import opened Cipher

  datatype ReadState =
    | Idle
    | Reading(from: nat, len: nat)
    | Available(data: Bytes)

  datatype Poll = Waiting | Ready(count: nat)

  /** What reading a file at an offset may bring: some of what is there, and nothing only at
      the end of the file, or when nothing was asked for. */
  predicate Brings(file: Bytes, from: nat, len: nat, data: Bytes) {
    && from + |data| <= |file|
    && file[from..from + |data|] == data
    && (data == [] <==> from == |file| || len == 0)
  }

  class UploadFile {
    const file: Bytes
    var offset: nat
    var pendingRead: ReadState
    /** Every byte handed to a caller so far. */
    ghost var returned: Bytes

    /** Bytes read from the file but not handed out yet. */
    function Stash(): Bytes
      reads this
    {
      if pendingRead.Available? then pendingRead.data else []
    }

    /** What has been handed out and what is stashed are the file up to the offset. */
    ghost predicate Valid()
      reads this
    {
      && offset <= |file|
      && returned + Stash() == file[..offset]
      && (pendingRead.Available? ==> pendingRead.data != [])
      && (pendingRead.Reading? ==> pendingRead.from == offset)
    }

    lemma ReturnedWithin()
      requires Valid()
      ensures |returned| <= |file|
    {
      assert |returned + Stash()| == offset;
    }

    constructor (file: Bytes)
      ensures this.file == file && Valid() && returned == [] && pendingRead == Idle
    {
      this.file := file;
      offset := 0;
      pendingRead := Idle;
      returned := [];
    }

    /** How much the read in flight, or about to start, asks for. */
    function ReadLen(bufLen: nat): nat
      reads this
    {
      if pendingRead.Reading? then pendingRead.len else bufLen
    }

    /** One poll into `buf`. `ready` says whether the read in flight has finished, bringing
        `data`; neither matters while there is a stash. */
    method PollRead(buf: array<Byte>, ready: bool, data: Bytes) returns (poll: Poll)
      requires Valid()
      requires ready && !pendingRead.Available? ==> Brings(file, offset, ReadLen(buf.Length), data)
      modifies this, buf
      ensures Valid()
      ensures poll == Waiting <==> !ready && !old(pendingRead.Available?)
      ensures poll == Waiting ==>
        && returned == old(returned) && offset == old(offset) && buf[..] == old(buf[..])
        && pendingRead == Reading(offset, old(ReadLen(buf.Length)))
      ensures poll.Ready? ==>
        && poll.count <= buf.Length && !pendingRead.Reading?
        && returned == old(returned) + buf[..poll.count]
        && buf[poll.count..] == old(buf[poll.count..])
        && (poll.count == 0 <==>
              buf.Length == 0
              || (!old(pendingRead.Available?) && (old(offset) == |file| || old(ReadLen(buf.Length)) == 0)))
    {
      var bytes := TakeBytes(buf.Length, ready, data);
      if bytes.None? {
        return Waiting;
      }
      var count := HandOut(buf, bytes.value);
      poll := Ready(count);
    }

    /** The bytes to hand out next: the stash, or what the read brings once it is ready. They
        are the caller's to deal with. */
    method TakeBytes(bufLen: nat, ready: bool, data: Bytes) returns (bytes: Option<Bytes>)
      requires Valid()
      requires ready && !pendingRead.Available? ==> Brings(file, offset, ReadLen(bufLen), data)
      modifies this`offset, this`pendingRead
      ensures returned == old(returned) && offset <= |file|
      ensures bytes.None? <==> !ready && !old(pendingRead.Available?)
      ensures bytes.None? ==> offset == old(offset) && pendingRead == Reading(offset, old(ReadLen(bufLen)))
      ensures bytes.Some? ==>
        && pendingRead == Idle && returned + bytes.value == file[..offset]
        && bytes.value == if old(pendingRead.Available?) then old(Stash()) else data
    {
      if pendingRead.Available? {
        bytes := Some(pendingRead.data);
        pendingRead := Idle;
        return;
      }
      pendingRead := Reading(offset, ReadLen(bufLen));
      if !ready {
        return None;
      }
      bytes := Some(data);
      pendingRead := Idle;
      offset := offset + |data|;
    }

    /** Fills the buffer and stashes what does not fit. */
    method HandOut(buf: array<Byte>, bytes: Bytes) returns (count: nat)
      requires offset <= |file| && pendingRead == Idle && returned + bytes == file[..offset]
      modifies this`pendingRead, this`returned, buf
      ensures Valid() && !pendingRead.Reading?
      ensures count == Min(|bytes|, buf.Length)
      ensures returned == old(returned) + buf[..count] && buf[count..] == old(buf[count..])
    {
      count := Min(|bytes|, buf.Length);
      ghost var tail := buf[count..];
      CopyTo(buf, bytes[..count]);
      if |bytes| > buf.Length {
        pendingRead := Available(bytes[buf.Length..]);
      }
      returned := returned + bytes[..count];
      assert bytes == bytes[..count] + bytes[count..];
      assert buf[count..] == tail && buf[..count] == bytes[..count];
      assert old(returned) + bytes == (old(returned) + bytes[..count]) + bytes[count..];
      assert Stash() == bytes[count..];
    }

    /** Reads into `buf`, waiting as many polls as it takes. */
    method Read(buf: array<Byte>) returns (count: nat)
      requires Valid() && buf.Length > 0 && !pendingRead.Reading?
      modifies this, buf
      ensures Valid() && !pendingRead.Reading?
      ensures count <= buf.Length && returned == old(returned) + buf[..count]
      ensures count == 0 ==> returned == file
    {
      var waits: nat := *;
      var data: Bytes := [];
      var poll := Waiting;
      ghost var start := returned;
      while waits > 0 && !pendingRead.Available?
        invariant Valid() && returned == start
        invariant pendingRead.Available? || ReadLen(buf.Length) == buf.Length
        decreases waits
      {
        poll := PollRead(buf, false, []);
        waits := waits - 1;
      }
      if !pendingRead.Available? {
        data := SomeBytes(ReadLen(buf.Length));
      }
      poll := PollRead(buf, true, data);
      count := poll.count;
    }

    /** Any outcome a read may have. */
    method SomeBytes(len: nat) returns (data: Bytes)
      requires Valid()
      ensures Brings(file, offset, len, data)
    {
      if offset == |file| || len == 0 {
        return [];
      }
      var n: nat :| 1 <= n <= |file| - offset;
      data := file[offset..offset + n];
    }
  }

  /** A read of nothing, still in flight when a real buffer comes, reports zero bytes to it with
      the whole file still to read. */
  method ZeroBeforeTheEnd(byte: Byte) returns (reader: UploadFile, buf: array<Byte>, poll: Poll)
    ensures reader.file == [byte] && reader.returned == [] && buf.Length == 1 && poll == Ready(0)
  {
    reader := new UploadFile([byte]);
    var empty := new Byte[0];
    var waiting := reader.PollRead(empty, false, []);
    buf := new Byte[1];
    poll := reader.PollRead(buf, true, []);
    assert buf[..0] == [];
  }

  /** Copies into the front of a buffer. */
  method CopyTo(buf: array<Byte>, data: Bytes)
    requires |data| <= buf.Length
    modifies buf
    ensures buf[..] == data + old(buf[|data|..])
  {
    ghost var tail := buf[|data|..];
    for i := 0 to |data|
      invariant buf[..i] == data[..i] && buf[|data|..] == tail
    {
      buf[i] := data[i];
    }
    assert buf[..] == buf[..|data|] + buf[|data|..];
  }

  const READ_BUFFER_LEN: nat := 16384

  function Zeroes(n: nat): Bytes {
    seq(n, _ => 0)
  }

  /** Gathers a whole file between a nonce and room for a tag: exactly what is encrypted, and
      exactly as much longer than the file as the downloader expects. */
  method ReadPlaintextToEnd(plaintext: UploadFile, nonce: Bytes) returns (data: Bytes)
    requires plaintext.Valid() && plaintext.returned == [] && !plaintext.pendingRead.Reading?
    requires |nonce| == NONCE_LEN
    modifies plaintext
    ensures data == nonce + plaintext.file + Zeroes(16) && |nonce| == 12
    ensures |data| == |plaintext.file| + 28 == |plaintext.file| + EXTRA_CIPHERTEXT_LEN
  {
    data := nonce;
    var buf := new Byte[READ_BUFFER_LEN];
    var count: nat := plaintext.Read(buf);
    plaintext.ReturnedWithin();
    while count != 0
      invariant |plaintext.returned| <= |plaintext.file|
      invariant plaintext.Valid() && !plaintext.pendingRead.Reading?
      invariant count <= buf.Length
      invariant data + buf[..count] == nonce + plaintext.returned
      invariant count == 0 ==> plaintext.returned == plaintext.file
      decreases |plaintext.file| - |plaintext.returned| + if count > 0 then 1 else 0
    {
      data := data + buf[..count];
      ghost var before := plaintext.returned;
      count := plaintext.Read(buf);
      PlusAssociates(nonce, before, buf[..count]);
      plaintext.ReturnedWithin();
    }
    assert data + buf[..0] == data;
    data := data + Zeroes(TAG_LEN);
  }
}
