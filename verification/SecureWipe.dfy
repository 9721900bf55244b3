// Wiping of secret buffers.
module SecureWipe {
  import opened Common

  ghost predicate IsZero(b: array<Byte>)
    reads b
  {
    forall i :: 0 <= i < b.Length ==> b[i] == 0
  }

  method Wipe(buffer: array<Byte>)
    modifies buffer
    ensures IsZero(buffer)
    ensures forall b: array<Byte> :: fresh(b) ==> IsZero(b)
  {
    for i := 0 to buffer.Length
      invariant forall j :: 0 <= j < i ==> buffer[j] == 0
      invariant forall b: array<Byte> :: fresh(b) ==> IsZero(b)
    {
      buffer[i] := 0;
    }
  }

  // Every given buffer is zero afterwards; `null` stands for an undefined entry.
  method BestEffortWipeArrayBuffers(buffers: seq<array?<Byte>>)
    modifies set b | b in buffers
    ensures forall i :: 0 <= i < |buffers| && buffers[i] != null ==> IsZero(buffers[i])
    ensures forall b: array<Byte> :: fresh(b) ==> IsZero(b)
  {
    for i := 0 to |buffers|
      invariant forall j :: 0 <= j < i && buffers[j] != null ==> IsZero(buffers[j])
      invariant forall b: array<Byte> :: fresh(b) ==> IsZero(b)
    {
      if buffers[i] != null { Wipe(buffers[i]); }
    }
  }
}
