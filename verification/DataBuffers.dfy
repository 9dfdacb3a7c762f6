/**
  common/utility/include/buffer.h and DataBuffer.h: a storage array that is only ever replaced by a
  larger one, and the number of bytes in use.  Pointers handed out by GetPtrForWriting alias the storage.
*/
module DataBuffers {
  import opened Basics

  class DataBuffer {
    var storage: array<byte>
    var dataLength: uint32

    ghost predicate Valid()
      reads this
    {
      dataLength as nat <= storage.Length < 0x1_0000_0000
    }

    ghost function Contents(): seq<byte>
      requires Valid()
      reads this, storage
    {
      storage[..dataLength]
    }

    constructor ()
      ensures Valid() && Contents() == [] && storage.Length == 0 && fresh(storage)
    {
      storage := new byte[0];
      dataLength := 0;
    }

    /** Growing replaces the storage without copying, so the bytes in use are lost unless there are none. */
    method SetBufferSizeLowerBound(newSize: uint32)
      requires Valid()
      modifies this
      ensures Valid() && dataLength == old(dataLength)
      ensures newSize as nat <= storage.Length
      ensures newSize as nat <= old(storage.Length) ==> storage == old(storage)
      ensures newSize as nat > old(storage.Length) ==> fresh(storage) && storage.Length == newSize as nat
    {
      if newSize as int > storage.Length {
        storage := new byte[newSize];
      }
    }

    /**
      Copies `len` bytes that `src` holds from `pos` on.  The source throws when they do not fit; its
      32-bit check is meant for requests whose sum does not wrap.
    */
    method AppendFrom(src: array<byte>, pos: nat, len: uint32) returns (fits: bool)
      requires Valid() && src != storage
      requires pos + len as nat <= src.Length
      requires len as nat + dataLength as nat < 0x1_0000_0000
      modifies this`dataLength, storage
      ensures Valid()
      ensures fits == (len as nat + old(dataLength) as nat <= storage.Length)
      ensures Contents() == old(Contents()) + if fits then src[pos..pos + len as nat] else []
      ensures storage[dataLength..] == old(storage[..])[dataLength..]
    {
      fits := len as int + dataLength as int <= storage.Length;
      if fits {
        forall i | 0 <= i < len as int {
          storage[dataLength as int + i] := src[pos + i];
        }
        dataLength := dataLength + len;
      }
    }

    method Clear()
      requires Valid()
      modifies this`dataLength
      ensures Valid() && Contents() == []
    {
      dataLength := 0;
    }

    function GetSpaceLeave(): uint32
      requires Valid()
      reads this
    {
      (storage.Length - dataLength as int) as uint32
    }
  }
}
