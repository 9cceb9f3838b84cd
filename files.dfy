/**
 * Local storage as the download engine sees it through `RandomAccessFile`:
 * a map from path to file contents, with positioned writes.
 */
module Files {

  newtype byte = x: int | 0 <= x < 256

  function Zeros(n: nat): (r: seq<byte>)
    ensures |r| == n && forall i :: 0 <= i < n ==> r[i] == 0
  {
    seq(n, _ => 0)
  }

  function Max(a: int, b: int): int {
    if a < b then b else a
  }

  /**
   * The contents after `seek(pos)` and `write(data)`: the bytes before
   * `pos` are kept, `data` replaces the next `|data|` bytes, the rest is
   * kept, and a non-empty write beyond the end first extends the file (the
   * gap reads as zeros here; Java leaves its contents unspecified).
   */
  function WriteAt(file: seq<byte>, pos: nat, data: seq<byte>): (r: seq<byte>)
    ensures |r| == if data == [] then |file| else Max(|file|, pos + |data|)
    ensures forall i :: 0 <= i < |r| ==>
      r[i] == if pos <= i < pos + |data| then data[i - pos] else if i < |file| then file[i] else 0
  {
    if data == [] then file else
    var padded := if pos <= |file| then file else file + Zeros(pos - |file|);
    var tail := if pos + |data| < |padded| then padded[pos + |data|..] else [];
    padded[..pos] + data + tail
  }

  /** Writing `a` and then `b` right behind it equals writing `a + b` at once. */
  lemma WriteAtContiguous(file: seq<byte>, pos: nat, a: seq<byte>, b: seq<byte>)
    ensures WriteAt(WriteAt(file, pos, a), pos + |a|, b) == WriteAt(file, pos, a + b)
  {
    var x := WriteAt(WriteAt(file, pos, a), pos + |a|, b);
    var y := WriteAt(file, pos, a + b);
    assert |x| == |y|;
    forall i | 0 <= i < |x| ensures x[i] == y[i] {
      if pos <= i < pos + |a| {
        assert (a + b)[i - pos] == a[i - pos];
      } else if pos + |a| <= i < pos + |a| + |b| {
        assert (a + b)[i - pos] == b[i - pos - |a|];
      }
    }
  }

  /** `setLength(n)`: truncates, or extends (with zeros here). */
  function Resized(file: seq<byte>, n: nat): (r: seq<byte>)
    ensures |r| == n
    ensures forall i :: 0 <= i < n ==> r[i] == if i < |file| then file[i] else 0
  {
    if n <= |file| then file[..n] else file + Zeros(n - |file|)
  }

  /** The contents of `path`, empty when no file is there. */
  function ContentsOf(files: map<string, seq<byte>>, path: string): seq<byte> {
    if path in files then files[path] else []
  }

  class FileStore {
    var files: map<string, seq<byte>>

    constructor (files: map<string, seq<byte>>)
      ensures this.files == files
    {
      this.files := files;
    }

    /** `new RandomAccessFile(path, "rwd")`: creates the file when it is absent. */
    method Open(path: string)
      modifies this
      ensures files == old(files)[path := ContentsOf(old(files), path)]
    {
      files := files[path := ContentsOf(files, path)];
    }

    method SetLength(path: string, n: nat)
      requires path in files
      modifies this
      ensures files == old(files)[path := Resized(old(files)[path], n)]
    {
      files := files[path := Resized(files[path], n)];
    }

    method Write(path: string, pos: nat, data: seq<byte>)
      requires path in files
      modifies this
      ensures files == old(files)[path := WriteAt(old(files)[path], pos, data)]
    {
      files := files[path := WriteAt(files[path], pos, data)];
    }
  }
}
