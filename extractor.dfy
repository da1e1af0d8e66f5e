/**
 * `extractNirCmd`: copies the bundled `/nircmd.exe` resource into a fresh
 * temporary file through an 8192-byte buffer and returns the file's path.
 */
module Extractor {
  import opened Java

  type Byte = bv8

  const ResourceName := "/nircmd.exe"
  const BufferSize: nat := 8192
  const MissingResourceMessage := "Cannot find '" + ResourceName + "' in classpath resources."

  /** The resource's input stream: its bytes and how many have been read. */
  class ResourceStream {
    const data: seq<Byte>
    var pos: nat
    var closed: bool

    ghost predicate Valid()
      reads this
    {
      pos <= |data|
    }

    constructor (data: seq<Byte>)
      ensures Valid()
      ensures this.data == data && pos == 0 && !closed
    {
      this.data := data;
      pos := 0;
      closed := false;
    }

    /**
     * `InputStream.read(byte[])`: -1 at the end of the stream; otherwise
     * some number n of bytes, 1 <= n <= buffer.Length, placed at the front
     * of the buffer. Callers may rely on nothing more than this about n.
     */
    method Read(buffer: array<Byte>) returns (n: int)
      requires Valid() && buffer.Length > 0
      modifies this, buffer
      ensures Valid() && closed == old(closed)
      ensures old(pos) == |data| ==> n == -1 && pos == old(pos)
      ensures old(pos) < |data| ==>
        1 <= n <= buffer.Length && pos == old(pos) + n && buffer[..n] == data[old(pos)..pos]
    {
      if pos == |data| {
        n := -1;
        return;
      }
      n := if |data| - pos < buffer.Length then |data| - pos else buffer.Length;
      forall i | 0 <= i < n {
        buffer[i] := data[pos + i];
      }
      pos := pos + n;
    }

    method Close()
      modifies this
      ensures closed && pos == old(pos)
    {
      closed := true;
    }
  }

  /** The freshly created temporary file, written through an output stream. */
  class TempFile {
    const path: string
    var contents: seq<Byte>

    constructor (path: string)
      ensures this.path == path && contents == []
    {
      this.path := path;
      contents := [];
    }

    /** `OutputStream.write(buffer, off, len)`. */
    method Write(buffer: array<Byte>, off: nat, len: nat)
      requires off + len <= buffer.Length
      modifies this
      ensures contents == old(contents) + buffer[off..off + len]
    {
      contents := contents + buffer[off..off + len];
    }
  }

  /**
   * `extractNirCmd`. `resource` is what `getResourceAsStream` returned
   * (null when the resource is missing); `created` is what
   * `Files.createTempFile` returned or threw; `openFailure` is what
   * `Files.newOutputStream` threw, if anything. On success the file holds
   * exactly the bytes of the resource, in order, and the resource stream
   * is closed. A failure to create the file propagates before the
   * try/finally is entered, so the stream is then left open; a failure to
   * open the output stream propagates after the finally closed it.
   */
  method ExtractNirCmd(resource: ResourceStream?, created: Result<TempFile>, openFailure: Option<Exception>)
    returns (r: Result<string>)
    requires resource != null ==> resource.Valid()
    requires created.Ok? ==> created.value.contents == []
    modifies resource, if created.Ok? then {created.value} else {}
    ensures resource == null ==> r == Err(IOException(MissingResourceMessage))
    ensures resource != null && created.Err? ==>
      r == Err(created.error) && resource.closed == old(resource.closed)
    ensures resource != null && created.Ok? && openFailure.Some? ==>
      r == Err(openFailure.value) && resource.closed &&
      created.value.contents == []
    ensures resource != null && created.Ok? && openFailure.None? ==>
      r == Ok(created.value.path) &&
      created.value.contents == old(resource.data[resource.pos..]) &&
      resource.closed
  {
    if resource == null {
      return Err(IOException(MissingResourceMessage));
    }
    if created.Err? {
      return Err(created.error);
    }
    if openFailure.Some? {
      resource.Close();
      return Err(openFailure.value);
    }
    var out := created.value;
    var buffer := new Byte[BufferSize];
    ghost var start := resource.pos;
    var bytesRead := resource.Read(buffer);
    while bytesRead != -1
      invariant resource.Valid() && start <= resource.pos
      invariant bytesRead == -1 ==>
        resource.pos == |resource.data| && out.contents == resource.data[start..resource.pos]
      invariant bytesRead != -1 ==>
        1 <= bytesRead <= buffer.Length && start <= resource.pos - bytesRead &&
        buffer[..bytesRead] == resource.data[resource.pos - bytesRead..resource.pos] &&
        out.contents == resource.data[start..resource.pos - bytesRead]
      decreases |resource.data| - resource.pos + (if bytesRead == -1 then 0 else 1)
    {
      out.Write(buffer, 0, bytesRead);
      bytesRead := resource.Read(buffer);
    }
    resource.Close();
    r := Ok(out.path);
  }
}
