/**
 The handler of blobs at one end of a channel: a loop cuts what is sent into pages, and its
 fields gather what is received.
 */
module BlobIO {
  import opened Wrappers
  import opened Spec = BlobTransfer

  class BlobIOHandler {
    var readChannel: seq<Byte>
    var writeChannel: Option<seq<Byte>>
    var blobBuffer: Blob
    var blobSize: int
    var notifying: bool
    var received: seq<Blob>
    var errors: nat

    function View(): Receiver
      reads this
    {
      Receiver(readChannel, blobBuffer, blobSize, notifying, received, errors)
    }

    constructor (readChannel: seq<Byte>, writeChannel: Option<seq<Byte>>)
      ensures View() == Receiver(readChannel, [], -1, false, [], 0)
      ensures this.writeChannel == writeChannel
    {
      this.readChannel, this.writeChannel := readChannel, writeChannel;
      blobBuffer, blobSize, notifying, received, errors := [], -1, false, [], 0;
    }

    method PageByteArray(ba: Blob) returns (dataPages: seq<Blob>)
      ensures dataPages == Pages(ba)
      ensures Join(dataPages) == ba
      ensures forall page <- dataPages :: 0 < |page| <= PAGE_SIZE
      ensures |dataPages| == (|ba| + PAGE_SIZE - 1) / PAGE_SIZE
    {
      dataPages := [];
      var position := 0;
      while position < |ba|
        invariant 0 <= position <= |ba|
        invariant dataPages + Pages(ba[position..]) == Pages(ba)
      {
        var end := if position + PAGE_SIZE <= |ba| then position + PAGE_SIZE else |ba|;
        var page := ba[position..end];
        ghost var left := ba[position..];
        assert left[..Min(PAGE_SIZE, |left|)] == page && left[Min(PAGE_SIZE, |left|)..] == ba[end..];
        dataPages := dataPages + [page];
        position := end;
      }
      PagesJoin(ba);
      PageCount(ba);
      hide Pages, Join;
      forall page | page in dataPages ensures 0 < |page| <= PAGE_SIZE {
        var k :| 0 <= k < |dataPages| && dataPages[k] == page;
        PageAt(ba, k);
      }
    }

    method SendData(ba: Blob) returns (ok: bool)
      requires Sizable(ba)
      modifies this`writeChannel
      ensures ok == old(writeChannel).Some?
      ensures writeChannel == if ok then Some(old(writeChannel).value + Sent(ba)) else old(writeChannel)
    {
      if writeChannel.None? {
        return false;
      }
      hide Word, Stream, Pages;
      Write(Word(|ba|));
      var pages := PageByteArray(ba);
      WritePages(pages);
      assert old(writeChannel).value + Word(|ba|) + Stream(pages) == old(writeChannel).value + Sent(ba);
      return true;
    }

    method Write(bytes: seq<Byte>)
      requires writeChannel.Some?
      modifies this`writeChannel
      ensures writeChannel == Some(old(writeChannel).value + bytes)
    {
      writeChannel := Some(writeChannel.value + bytes);
    }

    method WritePages(pages: seq<Blob>)
      requires writeChannel.Some? && ArePages(pages)
      modifies this`writeChannel
      ensures writeChannel == Some(old(writeChannel).value + Stream(pages))
    {
      ghost var before := writeChannel.value;
      assert pages[0..] == pages;
      for i := 0 to |pages|
        invariant writeChannel.Some?
        invariant writeChannel.value + Stream(pages[i..]) == before + Stream(pages)
      {
        StreamFrom(pages, i);
        ghost var sofar := writeChannel.value;
        Write(Array(pages[i]));
        assert sofar + Array(pages[i]) + Stream(pages[i + 1..]) == sofar + (Array(pages[i]) + Stream(pages[i + 1..]));
        hide Stream, Array;
      }
      assert pages[|pages|..] == [];
      assert writeChannel.value + Stream([]) == writeChannel.value;
    }

    /** Reads a serialized byte array, or all that is left if it is not whole. */
    method ReadArray() returns (fraction: Blob)
      modifies this`readChannel
      ensures fraction == Fraction(old(readChannel)) && readChannel == AfterFraction(old(readChannel))
    {
      fraction := [];
      if |readChannel| < 4 {
        readChannel := [];
        return;
      }
      var length := Value(readChannel);
      if length == NULL_LENGTH {
        readChannel := readChannel[4..];
        return;
      }
      if |readChannel| - 4 < length {
        readChannel := [];
        return;
      }
      fraction, readChannel := readChannel[4..4 + length], readChannel[4 + length..];
    }

    method SetReadNotificationEnabled(enabled: bool)
      modifies this`notifying
      ensures notifying == enabled
    {
      notifying := enabled;
    }

    method ReceiveData(expectedDataSize: int)
      modifies this
      ensures View() == Spec.ReceiveData(old(View()), expectedDataSize)
      ensures writeChannel == old(writeChannel)
    {
      blobBuffer := [];
      blobSize := expectedDataSize;
      if blobSize > PAGE_SIZE {
        SetReadNotificationEnabled(true);
      }
      ReadBlob();
    }

    method ReadBlob()
      modifies this
      ensures View() == Spec.ReadBlob(old(View()))
      ensures writeChannel == old(writeChannel)
    {
      var fraction := ReadArray();
      hide Fraction, AfterFraction;
      blobBuffer := blobBuffer + fraction;
      if |fraction| == 0 && |blobBuffer| < blobSize {
        SetReadNotificationEnabled(false);
        errors := errors + 1;
        return;
      }
      if |blobBuffer| == blobSize {
        if blobSize > PAGE_SIZE {
          SetReadNotificationEnabled(false);
        }
        received := received + [blobBuffer];
      }
    }
  }
}
