/** The bounded read loop of `_read_private_file`. */
module FileReading {
  import opened Tree
  import opened Wrappers

  /** read(2): at the end of the file nothing, before it at least one byte and at most `request`. */
  method Read(data: Bytes, offset: nat, request: nat) returns (chunk: Bytes)
    requires offset <= |data|
    ensures offset + |chunk| <= |data| && |chunk| <= request && chunk == data[offset..offset + |chunk|]
    ensures chunk == [] <==> offset == |data| || request == 0
  {
    if offset == |data| || request == 0 {
      chunk := [];
    } else {
      var got :| 1 <= got <= request && got <= |data| - offset;
      chunk := data[offset..offset + got];
    }
  }

  /** 64 KiB at a time, and in the end one byte past the bound, to see whether there is one. */
  function NextRequest(length: nat): (request: int)
    ensures request == if length <= 67043329 then 65536 else 67108865 - length
  {
    if 64 * 1024 <= MAX_FILE_BYTES + 1 - length then 64 * 1024 else MAX_FILE_BYTES + 1 - length
  }

  /** For every schedule of short reads: the whole file, exactly when its length is the size seen before and
      within the bound. Each request is for at least one byte, so an empty chunk does mean the end. */
  method ReadBounded(data: Bytes, size: nat) returns (content: Option<Bytes>)
    ensures content == if |data| == size && size <= 67108864 then Some(data) else None
  {
    if size > MAX_FILE_BYTES { return None; }
    var payload: Bytes := [];
    var chunk := Read(data, 0, NextRequest(0));
    while chunk != []
      invariant |payload| + |chunk| <= |data| && payload + chunk == data[..|payload| + |chunk|]
      invariant |payload| <= MAX_FILE_BYTES
      invariant chunk == [] ==> |payload| == |data|
      decreases |data| - |payload|
    {
      payload := payload + chunk;
      if |payload| > MAX_FILE_BYTES { return None; }
      assert 1 <= NextRequest(|payload|);
      chunk := Read(data, |payload|, NextRequest(|payload|));
      assert payload + chunk == data[..|payload| + |chunk|];
    }
    assert payload == data;
    content := if |payload| == size then Some(payload) else None;
  }
}
