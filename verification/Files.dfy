// Files as both protocols see them through source/bforce/prot_common.c.
module Files {
  import opened Crc

  type File = seq<Byte>

  // p_rx_writefile: fine, an error after part of the block got written, or the file is gone.
  datatype WriteOutcome = WriteOk | WriteError(part: nat) | WriteGone

  function Min(a: int, b: int): (m: int)
    ensures m <= a && m <= b && (m == a || m == b)
  {
    if a < b then a else b
  }

  // The bytes are those of f from pos on.
  predicate Slice(f: File, pos: int, bytes: seq<Byte>) {
    0 <= pos && pos + |bytes| <= |f| && bytes == f[pos..pos + |bytes|]
  }

  // A block of the file that starts where the partial file ends lengthens it rightly.
  lemma PrefixGrows(f: File, disk: seq<Byte>, bytes: seq<Byte>, k: nat)
    requires disk <= f && Slice(f, |disk|, bytes) && k <= |bytes|
    ensures disk + bytes[..k] <= f
  {
    assert forall j :: 0 <= j < k ==> bytes[..k][j] == f[|disk| + j];
  }
}
