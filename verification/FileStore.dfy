/** The disk the installer and the torrent storage work on: paths to file contents. */
module FileStore {
  import opened Bytes
  import opened Wrappers

  type Path = string
  type Files = map<Path, seq<byte>>

  function Join(root: Path, relative: string): Path {
    root + "/" + relative
  }

  lemma JoinInjective(root: Path, a: string, b: string)
    requires Join(root, a) == Join(root, b)
    ensures a == b
  {
    assert a == Join(root, a)[|root| + 1..];
    assert b == Join(root, b)[|root| + 1..];
  }

  /** Component-wise prefix test on clean generic paths. */
  predicate Under(file: Path, folder: Path) {
    file == folder || folder + "/" <= file
  }

  function Zeros(count: nat): (z: seq<byte>)
    ensures |z| == count && forall i :: 0 <= i < count ==> z[i] == 0
  {
    seq(count, _ => 0)
  }

  /** Truncation, or growth with zero bytes. */
  function Resized(content: seq<byte>, size: nat): (r: seq<byte>)
    ensures |r| == size
    ensures forall i :: 0 <= i < size ==> r[i] == if i < |content| then content[i] else 0
  {
    if size <= |content| then content[..size] else content + Zeros(size - |content|)
  }

  /** A positioned write; a gap past the old end reads as zero. */
  function Overwritten(content: seq<byte>, offset: nat, bytes: seq<byte>): (r: seq<byte>)
    ensures offset + |bytes| <= |content| ==> |r| == |content|
    ensures forall i :: 0 <= i < |content| ==> i < |r| && r[i] == if offset <= i < offset + |bytes| then bytes[i - offset] else content[i]
    ensures offset + |bytes| <= |r| || bytes == []
    ensures bytes != [] ==> r[offset..offset + |bytes|] == bytes
  {
    if bytes == [] then content
    else
      var base := if |content| < offset + |bytes| then Resized(content, offset + |bytes|) else content;
      base[..offset] + bytes + base[offset + |bytes|..]
  }

  function ContentAt(files: Files, path: Path): seq<byte> {
    if path in files then files[path] else []
  }

  function Slice(content: seq<byte>, offset: nat, length: nat): (r: Option<seq<byte>>)
    ensures r.Some? <==> offset + length <= |content|
    ensures r.Some? ==> |r.value| == length
  {
    if offset + length <= |content| then Some(content[offset..offset + length]) else None
  }

  /** The disk operations the modelled code issues, each succeeding. */
  class Disk {
    var files: Files

    constructor (initial: Files)
      ensures files == initial
    {
      files := initial;
    }

    method Create(path: Path)
      modifies this
      ensures files == old(files)[path := []]
    {
      files := files[path := []];
    }

    method Resize(path: Path, size: nat)
      requires path in files
      modifies this
      ensures files == old(files)[path := Resized(old(files)[path], size)]
    {
      files := files[path := Resized(files[path], size)];
    }

    /** Opens for writing, creating the file when it is absent. */
    method WriteAt(path: Path, offset: nat, bytes: seq<byte>)
      modifies this
      ensures files == old(files)[path := Overwritten(ContentAt(old(files), path), offset, bytes)]
    {
      files := files[path := Overwritten(ContentAt(files, path), offset, bytes)];
    }

    method Copy(source: Path, target: Path)
      requires source in files
      modifies this
      ensures files == old(files)[target := old(files)[source]]
    {
      files := files[target := files[source]];
    }

    method Rename(source: Path, target: Path)
      requires source in files
      modifies this
      ensures files == (old(files) - {source})[target := old(files)[source]]
    {
      var moved := files[source];
      files := (files - {source})[target := moved];
    }

    method Remove(path: Path) returns (existed: bool)
      modifies this
      ensures existed == (path in old(files))
      ensures files == old(files) - {path}
    {
      existed := path in files;
      files := files - {path};
    }
  }
}
