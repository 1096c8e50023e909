/**
 The bytes hashed into a project fingerprint, and their decoder: different lists of files give
 different bytes.
 */
module FingerprintBytes {
  import opened Wrappers
  import opened Utf8

  /** A file as the fingerprint sees it. */
  datatype Entry = Entry(path: string, mode: nat, content: seq<Byte>)

  function Limit(width: nat): nat { if width == 0 then 1 else 256 * Limit(width - 1) }

  /** Eight bytes hold the numbers below 2^64, four those below 2^32. */
  lemma Limits()
    ensures Limit(4) == 0x1_0000_0000 && Limit(8) == 0x1_0000_0000_0000_0000
  {
    assert Limit(2) == 0x1_0000;
    assert Limit(4) == 0x1_0000_0000;
    assert Limit(6) == 0x1_0000_0000_0000;
  }

  /** A number as `width` bytes, the most significant first. */
  function BigEndian(n: nat, width: nat): (bytes: seq<Byte>)
    ensures |bytes| == width
  {
    if width == 0 then [] else BigEndian(n / 256, width - 1) + [n % 256]
  }

  function Number(bytes: seq<Byte>): nat {
    if bytes == [] then 0 else Number(bytes[..|bytes| - 1]) * 256 + bytes[|bytes| - 1]
  }

  lemma {:induction false} NumberUndoesBigEndian(n: nat, width: nat)
    requires n < Limit(width)
    ensures Number(BigEndian(n, width)) == n
  {
    if width > 0 {
      NumberUndoesBigEndian(n / 256, width - 1);
      var bytes := BigEndian(n, width);
      assert bytes[..width - 1] == BigEndian(n / 256, width - 1);
    }
  }

  /** The sizes the file format has room for. */
  predicate Fits(e: Entry) {
    && |Encode(e.path)| < 0x1_0000_0000_0000_0000
    && e.mode < 0x1_0000_0000
    && |e.content| < 0x1_0000_0000_0000_0000
  }

  function EntryBytes(e: Entry): seq<Byte> {
    var path := Encode(e.path);
    BigEndian(|path|, 8) + (path + (BigEndian(e.mode, 4) + (BigEndian(|e.content|, 8) + e.content)))
  }

  function Serialize(entries: seq<Entry>): seq<Byte> {
    if entries == [] then [] else EntryBytes(entries[0]) + Serialize(entries[1..])
  }

  /** The first `n` bytes and the rest. */
  function Take(b: seq<Byte>, n: nat): Option<(seq<Byte>, seq<Byte>)> {
    if |b| < n then None else Some((b[..n], b[n..]))
  }

  lemma TakeJoined(a: seq<Byte>, rest: seq<Byte>)
    ensures Take(a + rest, |a|) == Some((a, rest))
  {
    assert (a + rest)[..|a|] == a && (a + rest)[|a|..] == rest;
  }

  /** A run of bytes preceded by its length. */
  function TakeSized(b: seq<Byte>): Option<(seq<Byte>, seq<Byte>)> {
    var size := Take(b, 8);
    if size.None? then None else Take(size.value.1, Number(size.value.0))
  }

  lemma TakeSizedJoined(a: seq<Byte>, rest: seq<Byte>)
    requires |a| < Limit(8)
    ensures TakeSized(BigEndian(|a|, 8) + (a + rest)) == Some((a, rest))
  {
    NumberUndoesBigEndian(|a|, 8);
    TakeJoined(BigEndian(|a|, 8), a + rest);
    TakeJoined(a, rest);
  }

  function FirstEntry(b: seq<Byte>): Option<(Entry, seq<Byte>)> {
    var path := TakeSized(b);
    if path.None? then None
    else
      var mode := Take(path.value.1, 4);
      if mode.None? then None
      else
        var content := TakeSized(mode.value.1);
        if content.None? then None
        else Some((Entry(DecodeIgnore(path.value.0), Number(mode.value.0), content.value.0), content.value.1))
  }

  lemma FirstEntryJoined(e: Entry, rest: seq<Byte>)
    requires Fits(e)
    ensures FirstEntry(EntryBytes(e) + rest) == Some((e, rest))
  {
    hide BigEndian, Limit, TakeSized, Take, Number;
    Limits();
    var path := Encode(e.path);
    var sized := BigEndian(|e.content|, 8) + (e.content + rest);
    var moded := BigEndian(e.mode, 4) + sized;
    assert EntryBytes(e) + rest == BigEndian(|path|, 8) + (path + moded);
    TakeSizedJoined(path, moded);
    TakeJoined(BigEndian(e.mode, 4), sized);
    TakeSizedJoined(e.content, rest);
    NumberUndoesBigEndian(e.mode, 4);
    DecodeUndoesEncode(e.path);
  }

  /** Reads entries until the bytes are used up; None if they do not end with an entry. */
  function Deserialize(b: seq<Byte>): Option<seq<Entry>>
    decreases |b|
  {
    if b == [] then Some([])
    else
      var first := FirstEntry(b);
      if first.None? || |first.value.1| >= |b| then None
      else
        var rest := Deserialize(first.value.1);
        if rest.None? then None else Some([first.value.0] + rest.value)
  }

  /** The bytes read back as exactly the files they were made of. */
  lemma {:induction false} DeserializeUndoesSerialize(entries: seq<Entry>)
    requires forall k | 0 <= k < |entries| :: Fits(entries[k])
    ensures Deserialize(Serialize(entries)) == Some(entries)
  {
    hide FirstEntry, Fits;
    if entries != [] {
      var rest := Serialize(entries[1..]);
      DeserializeUndoesSerialize(entries[1..]);
      FirstEntryJoined(entries[0], rest);
      assert |EntryBytes(entries[0])| >= 8;
      assert entries == [entries[0]] + entries[1..];
    }
  }

  /** Equal bytes come from equal lists of files. */
  lemma SerializeIsInjective(a: seq<Entry>, b: seq<Entry>)
    requires (forall k | 0 <= k < |a| :: Fits(a[k])) && (forall k | 0 <= k < |b| :: Fits(b[k]))
    ensures Serialize(a) == Serialize(b) <==> a == b
  {
    DeserializeUndoesSerialize(a);
    DeserializeUndoesSerialize(b);
  }

  /** Hashes a file's content in pieces of at most a mebibyte. */
  method HashContent(digested: seq<Byte>, content: seq<Byte>) returns (hashed: seq<Byte>)
    ensures hashed == digested + content
  {
    hashed := digested;
    var read := 0;
    while read < |content|
      invariant 0 <= read <= |content| && hashed == digested + content[..read]
    {
      var next := if |content| - read > 1048576 then read + 1048576 else |content|;
      assert content[..next] == content[..read] + content[read..next];
      Regroup(digested, content[..read], content[read..next]);
      hashed := hashed + content[read..next];
      read := next;
    }
    assert content[..read] == content;
  }

  method HashFile(digested: seq<Byte>, e: Entry) returns (hashed: seq<Byte>)
    ensures hashed == digested + EntryBytes(e)
  {
    hide BigEndian, Encode;
    var encoded := Encode(e.path);
    var length, mode, size := BigEndian(|encoded|, 8), BigEndian(e.mode, 4), BigEndian(|e.content|, 8);
    hashed := digested + length;
    hashed := hashed + encoded;
    hashed := hashed + mode;
    hashed := hashed + size;
    Regroup(digested + length + encoded + mode, size, e.content);
    Regroup(digested + length + encoded, mode, size + e.content);
    Regroup(digested + length, encoded, mode + (size + e.content));
    Regroup(digested, length, encoded + (mode + (size + e.content)));
    hashed := HashContent(hashed, e.content);
  }

  /** Hashes the entries one after the other. */
  method HashEntries(entries: seq<Entry>) returns (hashed: seq<Byte>)
    ensures hashed == Serialize(entries)
  {
    hide EntryBytes;
    hashed := [];
    assert entries[0..] == entries && [] + Serialize(entries) == Serialize(entries);
    for k := 0 to |entries|
      invariant Serialize(entries) == hashed + Serialize(entries[k..])
    {
      assert entries[k..][1..] == entries[k + 1..];
      Regroup(hashed, EntryBytes(entries[k]), Serialize(entries[k + 1..]));
      hashed := HashFile(hashed, entries[k]);
    }
    assert entries[|entries|..] == [] && hashed + [] == hashed;
  }
}
