/** Reading the head of a proxy's response, one byte at a time. */
module ProxyResponse {

  /** One call of `Read` with room for a single byte: whether it returns one, and an error. */
  datatype ReadCall = ReadCall(got: bool, b: char, failed: bool)

  /** `Waiting` means the calls are used up and more would be made. */
  datatype Head = Complete(text: string) | ReadFailed | Waiting

  const RESPONSE_TERMINATOR: string := "\r\n\r\n"

  predicate EndsHead(s: string) {
    |s| >= 4 && s[|s| - 4..] == RESPONSE_TERMINATOR
  }

  /** The bytes the calls return. */
  function Delivered(calls: seq<ReadCall>): string {
    if calls == [] then ""
    else
      var call := calls[|calls| - 1];
      Delivered(calls[..|calls| - 1]) + if call.got then [call.b] else ""
  }

  ghost predicate NoneFails(calls: seq<ReadCall>) {
    forall i :: 0 <= i < |calls| ==> !calls[i].failed
  }

  /** Reads until the bytes so far end in an empty line. `used` counts the calls made. The head is
      complete exactly when some calls before the first failure deliver a whole one. */
  method ReadResponse(calls: seq<ReadCall>) returns (head: Head, used: nat)
    ensures used <= |calls|
    ensures head.Complete?
      <==> exists k :: 0 <= k <= |calls| && NoneFails(calls[..k]) && EndsHead(Delivered(calls[..k]))
    ensures head.Complete? ==> NoneFails(calls[..used]) && head.text == Delivered(calls[..used]) && EndsHead(head.text)
    ensures head.Complete? ==> forall k :: 0 <= k < used ==> !EndsHead(Delivered(calls[..k]))
    ensures head.ReadFailed? ==> 0 < used && calls[used - 1].failed && NoneFails(calls[..used - 1])
    ensures head.ReadFailed? ==> forall k :: 0 <= k < used ==> !EndsHead(Delivered(calls[..k]))
    ensures head.Waiting? ==> used == |calls| && NoneFails(calls)
    ensures head.Waiting? ==> forall k :: 0 <= k <= |calls| ==> !EndsHead(Delivered(calls[..k]))
  {
    hide EndsHead;
    var buf := "";
    used := 0;
    while !EndsHead(buf)
      invariant used <= |calls|
      invariant buf == Delivered(calls[..used]) && NoneFails(calls[..used])
      invariant forall k :: 0 <= k < used ==> !EndsHead(Delivered(calls[..k]))
      decreases |calls| - used
    {
      if used == |calls| {
        assert calls[..used] == calls;
        return Waiting, used;
      }
      var call := calls[used];
      used := used + 1;
      assert calls[..used][..used - 1] == calls[..used - 1];
      if call.failed {
        forall k | used <= k <= |calls| ensures !NoneFails(calls[..k]) {
          assert calls[..k][used - 1].failed;
        }
        return ReadFailed, used;
      }
      if !call.got {
        continue;
      }
      buf := buf + [call.b];
    }
    head := Complete(buf);
  }

  lemma {:induction false} DeliveredSplits(calls: seq<ReadCall>, k: nat)
    requires k <= |calls|
    ensures Delivered(calls) == Delivered(calls[..k]) + Delivered(calls[k..])
  {
    if k == |calls| {
      assert calls[..k] == calls;
    } else {
      var earlier := calls[..|calls| - 1];
      DeliveredSplits(earlier, k);
      assert earlier[..k] == calls[..k] && earlier[k..] == calls[k..][..|calls| - k - 1];
    }
  }

  lemma {:induction false} PrefixesAreDelivered(calls: seq<ReadCall>, n: nat)
    requires n <= |Delivered(calls)|
    ensures exists k :: 0 <= k <= |calls| && Delivered(calls[..k]) == Delivered(calls)[..n]
  {
    if n == |Delivered(calls)| {
      assert calls[..|calls|] == calls;
    } else {
      var earlier := calls[..|calls| - 1];
      PrefixesAreDelivered(earlier, n);
      var k :| 0 <= k <= |earlier| && Delivered(earlier[..k]) == Delivered(earlier)[..n];
      assert earlier[..k] == calls[..k];
    }
  }

  /** What reading took is the shortest prefix of the stream that ends in an empty line, and the
      rest of the stream comes right after it: section 6.3 of RFC 9112, section 9.3.6 of RFC 9110. */
  lemma {:induction false} HeadIsShortestPrefix(calls: seq<ReadCall>, used: nat, n: nat)
    requires used <= |calls| && EndsHead(Delivered(calls[..used]))
    requires forall k :: 0 <= k < used ==> !EndsHead(Delivered(calls[..k]))
    ensures Delivered(calls) == Delivered(calls[..used]) + Delivered(calls[used..])
    ensures n < |Delivered(calls[..used])| ==> !EndsHead(Delivered(calls)[..n])
  {
    DeliveredSplits(calls, used);
    if n < |Delivered(calls[..used])| {
      PrefixesAreDelivered(calls[..used], n);
      var k :| 0 <= k <= used && Delivered(calls[..used][..k]) == Delivered(calls[..used])[..n];
      assert calls[..used][..k] == calls[..k];
      assert Delivered(calls)[..n] == Delivered(calls[..used])[..n];
    }
  }
}
