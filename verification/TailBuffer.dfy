/**
 The buffer that keeps the end of a command's output: the longest suffix of whole characters
 that fits in a number of bytes, however the output arrives.
 */
module TailBuffer {
  import opened Utf8

  /** The longest suffix of a text that takes at most `limit` bytes. */
  function Tail(text: string, limit: nat): string {
    if Size(text) <= limit then text else Tail(text[1..], limit)
  }

  /** It is a suffix, it fits, and every suffix that fits is a suffix of it. */
  lemma {:induction false} TailIsTheLongestSuffix(text: string, limit: nat, k: nat)
    requires k <= |text|
    ensures |Tail(text, limit)| <= |text| && Tail(text, limit) == text[|text| - |Tail(text, limit)|..]
    ensures Size(Tail(text, limit)) <= limit
    ensures Size(text[k..]) <= limit <==> |text[k..]| <= |Tail(text, limit)|
  {
    hide Width;
    if Size(text) <= limit {
      hide Size;
      SizeOfConcat(text[..k], text[k..]);
      assert text[..k] + text[k..] == text;
    } else {
      assert text != [];
      hide Size;
      var rest := text[1..];
      TailIsTheLongestSuffix(rest, limit, if k == 0 then 0 else k - 1);
      var t := Tail(rest, limit);
      assert text[|text| - |t|..] == rest[|rest| - |t|..];
      if k == 0 {
        assert text[0..] == text;
      } else {
        assert text[k..] == rest[k - 1..];
      }
    }
  }

  /** Only the tail of what came before matters to what comes after. */
  lemma {:induction false} TailForgets(s: string, more: string, limit: nat)
    ensures Tail(Tail(s, limit) + more, limit) == Tail(s + more, limit)
  {
    if Size(s) > limit {
      SizeOfConcat(s, more);
      assert (s + more)[1..] == s[1..] + more;
      TailForgets(s[1..], more, limit);
    }
  }

  /** A part that lies wholly outside the last `limit` bytes can go. */
  lemma {:induction false} PartIsOutside(part: string, rest: string, limit: nat)
    requires Size(rest) >= limit
    ensures Tail(part + rest, limit) == Tail(rest, limit)
  {
    if part == [] {
      assert part + rest == rest;
    } else {
      SizeOfConcat(part, rest);
      assert (part + rest)[1..] == part[1..] + rest;
      PartIsOutside(part[1..], rest, limit);
    }
  }

  /** A part that lies partly outside is cut at a byte, then at the next whole character. */
  lemma {:induction false} PartIsCut(part: string, rest: string, limit: nat)
    requires Size(rest) <= limit < Size(part + rest)
    ensures Tail(part + rest, limit) == DropBytes(part, Size(part + rest) - limit) + rest
    ensures Size(DropBytes(part, Size(part + rest) - limit)) + Size(rest) <= limit
  {
    SizeOfConcat(part, rest);
    SizeOfConcat(part[1..], rest);
    assert (part + rest)[1..] == part[1..] + rest;
    if Size(part[1..] + rest) > limit {
      PartIsCut(part[1..], rest, limit);
    }
  }

  lemma TailOfBytes(text: string, limit: nat)
    requires limit <= Size(text)
    ensures |Encode(text)| == Size(text)
    ensures DecodeIgnore(Encode(text)[Size(text) - limit..]) == Tail(text, limit)
  {
    SizeIsEncodedLength(text);
    DecodeFromByte(text, Size(text) - limit);
    assert text + "" == text;
    if limit < Size(text) {
      PartIsCut(text, "", limit);
    }
  }

  /** What the truncation flag stands for: bytes were lost, or one value filled the buffer exactly. */
  ghost predicate Overflowed(appended: seq<string>, limit: nat) {
    Size(Concat(appended)) > limit || exists i | 0 <= i < |appended| :: Size(appended[i]) == limit
  }

  lemma {:induction false} PartsFit(parts: seq<string>, i: nat)
    requires i < |parts|
    ensures Size(parts[i]) <= Size(Concat(parts))
  {
    SizeOfConcat(parts[0], Concat(parts[1..]));
    if i > 0 {
      PartsFit(parts[1..], i - 1);
    }
  }

  /**
   A clear flag means nothing was lost. The converse fails exactly for output of `limit` bytes
   that came in one piece.
   */
  lemma FlagAndLoss(appended: seq<string>, limit: nat)
    ensures Tail(Concat(appended), limit) != Concat(appended) <==> Size(Concat(appended)) > limit
    ensures !Overflowed(appended, limit) ==> Tail(Concat(appended), limit) == Concat(appended)
    ensures Overflowed(appended, limit) && Tail(Concat(appended), limit) == Concat(appended)
            <==> Size(Concat(appended)) == limit && exists i | 0 <= i < |appended| :: Size(appended[i]) == limit
  {
    TailIsTheLongestSuffix(Concat(appended), limit, 0);
    forall i | 0 <= i < |appended| ensures Size(appended[i]) <= Size(Concat(appended)) {
      PartsFit(appended, i);
    }
  }

  lemma OverflowedMore(appended: seq<string>, value: string, limit: nat)
    ensures Concat(appended + [value]) == Concat(appended) + value
    ensures Overflowed(appended + [value], limit) <==>
            || Overflowed(appended, limit)
            || Size(Tail(Concat(appended), limit) + value) > limit
            || Size(value) == limit
  {
    ConcatOfConcat(appended, [value]);
    ConcatOfOne(value);
    SizeOfConcat(Concat(appended), value);
    var all := appended + [value];
    assert all[|appended|] == value;
    assert forall i | 0 <= i < |appended| :: all[i] == appended[i];
  }

  lemma TailFits(text: string, limit: nat)
    ensures Size(text) <= limit ==> Tail(text, limit) == text
  {
  }

  lemma FirstPart(parts: seq<string>)
    requires parts != []
    ensures Concat(parts) == parts[0] + Concat(parts[1..])
    ensures parts == [parts[0]] + parts[1..]
  {
  }

  lemma NoChunks()
    ensures Size(Concat([])) == 0
  {
  }

  class BoundedTextBuffer {
    const limit: nat
    var chunks: seq<string>
    var size: nat
    var truncated: bool
    /** Every value appended so far. */
    ghost var appended: seq<string>

    /**
     The text is the tail of everything appended, the size is its length in bytes, and the flag
     tells whether bytes were lost or one value came that filled the buffer exactly.
     */
    ghost predicate Valid()
      reads this
    {
      && limit > 0
      && size == Size(Concat(chunks)) <= limit
      && Concat(chunks) == Tail(Concat(appended), limit)
      && (truncated <==> Overflowed(appended, limit))
    }

    constructor Empty(limit: nat)
      requires limit > 0
      ensures Valid() && this.limit == limit && appended == []
    {
      this.limit := limit;
      chunks, size, truncated, appended := [], 0, false, [];
    }

    /** A limit that is not positive is refused. */
    static method Create(limit: int) returns (buffer: BoundedTextBuffer?)
      ensures buffer == null <==> limit <= 0
      ensures buffer != null ==> fresh(buffer) && buffer.Valid() && buffer.limit == limit && buffer.appended == []
    {
      if limit <= 0 {
        return null;
      }
      buffer := new BoundedTextBuffer.Empty(limit);
    }

    method Append(value: string)
      requires Valid()
      modifies this
      ensures Valid() && appended == old(appended) + [value]
    {
      hide Overflowed;
      var encoded := Encode(value);
      SizeIsEncodedLength(value);
      ghost var before := Concat(appended);
      OverflowedMore(appended, value, limit);
      TailForgets(before, value, limit);
      TailIsTheLongestSuffix(before, limit, 0);
      SizeOfConcat(Concat(chunks), value);
      ConcatOfConcat(chunks, [value]);
      ConcatOfOne(value);
      appended := appended + [value];
      if |encoded| == 0 {
        assert Concat(chunks) + value == Concat(chunks);
        return;
      }
      if |encoded| >= limit {
        Replace(value, encoded);
        PartIsOutside(before, value, limit);
        return;
      }
      chunks := chunks + [value];
      size := size + |encoded|;
      DropExcess();
    }

    /** A value that fills the buffer drives out everything else. */
    method Replace(value: string, encoded: seq<Byte>)
      requires limit > 0 && encoded == Encode(value) && |encoded| >= limit
      modifies this`chunks, this`size, this`truncated
      ensures size == Size(Concat(chunks)) <= limit && truncated
      ensures Concat(chunks) == Tail(value, limit)
    {
      SizeIsEncodedLength(value);
      TailOfBytes(value, limit);
      TailIsTheLongestSuffix(value, limit, 0);
      var text := DecodeIgnore(encoded[|encoded| - limit..]);
      chunks := [text];
      size := |Encode(text)|;
      truncated := true;
      SizeIsEncodedLength(text);
      ConcatOfOne(text);
    }

    /** Drops whole chunks from the left, then cuts one, until the rest fits. */
    method DropExcess()
      requires size == Size(Concat(chunks))
      modifies this`chunks, this`size, this`truncated
      ensures size == Size(Concat(chunks)) <= limit
      ensures Concat(chunks) == Tail(old(Concat(chunks)), limit)
      ensures truncated <==> old(truncated) || old(size) > limit
    {
      hide Concat, Size, Tail, Encode, DecodeIgnore, DropBytes;
      ghost var whole := Concat(chunks);
      NoChunks();
      while size > limit && chunks != []
        invariant size == Size(Concat(chunks)) <= old(size)
        invariant Tail(Concat(chunks), limit) == Tail(whole, limit)
        invariant size < old(size) ==> truncated && old(size) > limit
        invariant old(truncated) ==> truncated
        invariant truncated ==> old(truncated) || old(size) > limit
        decreases |chunks|
      {
        var excess := size - limit;
        var first := chunks[0];
        FirstPart(chunks);
        chunks := chunks[1..];
        ghost var rest := Concat(chunks);
        SizeOfConcat(first, rest);
        var firstEncoded := Encode(first);
        SizeIsEncodedLength(first);
        if |firstEncoded| <= excess {
          PartIsOutside(first, rest, limit);
          size := size - |firstEncoded|;
          truncated := true;
          continue;
        }
        var retained := DecodeIgnore(firstEncoded[excess..]);
        DecodeFromByte(first, excess);
        PartIsCut(first, rest, limit);
        SizeOfConcat(retained, rest);
        SizeIsEncodedLength(retained);
        FirstPart([retained] + chunks);
        TailFits(retained + rest, limit);
        chunks := [retained] + chunks;
        size := size - (|firstEncoded| - |Encode(retained)|);
        truncated := true;
        break;
      }
      TailFits(Concat(chunks), limit);
    }

    method Text() returns (text: string)
      requires Valid()
      ensures text == Tail(Concat(appended), limit) && Size(text) == size <= limit
    {
      text := Concat(chunks);
    }
  }
}
