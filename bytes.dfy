/** Files as byte sequences, and the two file operations the bundle pipeline
    performs on them: a positioned read and a positioned overwrite. */
module Bytes {

  type byte = b: int | 0 <= b < 256

  function Min(a: nat, b: nat): nat { if a <= b then a else b }

  /** `f.seek(offset); f.read(n)` on a file opened in binary mode: up to `n`
      bytes, fewer (possibly none) when the file ends first. */
  function ReadAt(file: seq<byte>, offset: nat, n: nat): (r: seq<byte>)
    ensures |r| <= n
    ensures offset + n <= |file| ==> r == file[offset..offset + n]
    ensures offset >= |file| ==> r == []
    ensures forall i :: 0 <= i < |r| ==> offset + i < |file| && r[i] == file[offset + i]
  {
    file[Min(offset, |file|)..Min(offset + n, |file|)]
  }

  /** `n` zero bytes, what a seek past the end followed by a write leaves in the gap. */
  function Zeros(n: nat): (r: seq<byte>)
    ensures |r| == n && forall i :: 0 <= i < n ==> r[i] == 0
  {
    seq(n, _ => 0)
  }

  /** The file after `f.seek(offset, 0); f.write(data)` on a file opened "r+b":
      the bytes at [offset, offset + |data|) become `data`; a write that runs past
      the end extends the file, and a seek past the end zero-fills the gap. */
  function WriteAt(file: seq<byte>, offset: nat, data: seq<byte>): seq<byte>
  {
    if offset <= |file| then
      file[..offset] + data + (if offset + |data| <= |file| then file[offset + |data|..] else [])
    else
      file + Zeros(offset - |file|) + data
  }

  /** A write that lies inside the file changes exactly its window: the length is
      kept, the window holds `data`, every other byte is as before. */
  lemma WriteAtWindow(file: seq<byte>, offset: nat, data: seq<byte>)
    requires offset + |data| <= |file|
    ensures |WriteAt(file, offset, data)| == |file|
    ensures WriteAt(file, offset, data)[offset..offset + |data|] == data
    ensures forall i :: 0 <= i < |file| && !(offset <= i < offset + |data|) ==>
              WriteAt(file, offset, data)[i] == file[i]
  {
    var w := WriteAt(file, offset, data);
    assert w == file[..offset] + data + file[offset + |data|..];
    forall i | 0 <= i < |file| && !(offset <= i < offset + |data|)
      ensures w[i] == file[i]
    {
      if i < offset {
        assert w[i] == file[..offset][i];
      } else {
        assert w[i] == file[offset + |data|..][i - offset - |data|];
      }
    }
  }

  /** Whatever the window, the write always leaves `data` at `offset` and keeps
      every byte before `offset`; the result is never shorter than the file. */
  lemma WriteAtAlways(file: seq<byte>, offset: nat, data: seq<byte>)
    ensures |WriteAt(file, offset, data)| == if offset + |data| <= |file| then |file| else offset + |data|
    ensures WriteAt(file, offset, data)[offset..offset + |data|] == data
    ensures forall i :: 0 <= i < offset && i < |file| ==> WriteAt(file, offset, data)[i] == file[i]
  {
  }

  /** Writing inside a prefix commutes with appending a suffix: patching
      `head + tail` at an offset that lies inside `head` is patching `head` and
      then appending `tail`. */
  lemma WriteAtPrefix(head: seq<byte>, tail: seq<byte>, offset: nat, data: seq<byte>)
    requires offset + |data| <= |head|
    ensures WriteAt(head + tail, offset, data) == WriteAt(head, offset, data) + tail
  {
    var ht := head + tail;
    var rest := head[offset + |data|..];
    assert ht[..offset] == head[..offset];
    assert ht[offset + |data|..] == rest + tail;
    calc {
      WriteAt(ht, offset, data);
      ht[..offset] + data + ht[offset + |data|..];
      head[..offset] + data + (rest + tail);
      (head[..offset] + data + rest) + tail;
      WriteAt(head, offset, data) + tail;
    }
  }

  /** An empty write changes nothing, unless it seeks past the end. */
  lemma WriteAtEmpty(file: seq<byte>, offset: nat)
    requires offset <= |file|
    ensures WriteAt(file, offset, []) == file
  {
    assert file[..offset] + file[offset..] == file;
  }
}
