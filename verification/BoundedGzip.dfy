/** The bounded decompression of a gzip payload, over any decompressor that keeps its contract. */
module BoundedGzip {
  import opened Common

  /** A member of a gzip payload, and what it decompresses to (section 2.2 of RFC 1952). */
  datatype Member = Member(data: bytes, plain: bytes)

  /**
   * How much of a member a call consumes and produces, for its remaining data, the bytes of it
   * that are there, what it has left to produce, and the most it may produce.
   */
  type Inflate = (bytes, nat, bytes, nat) -> (nat, nat)

  /**
   * The contract of a decompressor: within its bounds, all of the plain text by the end of the
   * data, and some progress while there is data left to consume.
   */
  ghost predicate Honest(inflate: Inflate) {
    forall data: bytes, there: nat, plain: bytes, max: nat ::
      0 < there <= |data| && max > 0 ==> KeepsContract(data, there, plain, max, inflate(data, there, plain, max))
  }

  predicate KeepsContract(data: bytes, there: nat, plain: bytes, max: nat, step: (nat, nat)) {
    var (consumed, produced) := step;
    && consumed <= there && produced <= |plain| && produced <= max
    && (consumed == |data| ==> produced == |plain|)
    && (consumed < there ==> consumed > 0 || produced > 0)
  }

  /** A decompressor for one member, as the zlib module provides it. */
  class Decompressor {
    const inflate: Inflate
    var data: bytes
    var plain: bytes
    var eof: bool
    var unusedData: bytes
    var unconsumedTail: bytes

    constructor (inflate: Inflate, m: Member)
      ensures this.inflate == inflate && data == m.data && plain == m.plain && !eof
    {
      this.inflate := inflate;
      data, plain, eof := m.data, m.plain, false;
      unusedData, unconsumedTail := [], [];
    }

    /** A limit of zero would mean no limit, so callers must not pass it. */
    method Decompress(input: bytes, max: nat) returns (out: bytes)
      requires Honest(inflate) && !eof && data != [] && input != [] && max > 0
      requires data <= input || input < data
      modifies this
      ensures |data| <= |old(data)| && out + plain == old(plain) && |out| <= max
      ensures var consumed := |old(data)| - |data|;
        && consumed <= |input| && data == old(data)[consumed..]
        && eof == (data == [])
        && (eof ==> unusedData == input[consumed..] && plain == [])
        && (!eof ==> unconsumedTail == input[consumed..])
        && (!eof && unconsumedTail != [] ==> out != [] || consumed > 0)
    {
      var there := if |data| <= |input| then |data| else |input|;
      var step := inflate(data, there, plain, max);
      assert KeepsContract(data, there, plain, max, step);
      var (consumed, produced) := step;
      out := plain[..produced];
      eof := consumed == |data|;
      if eof {
        unusedData, unconsumedTail := input[consumed..], [];
      } else {
        unusedData, unconsumedTail := [], input[consumed..];
      }
      data, plain := data[consumed..], plain[produced..];
    }
  }

  function JoinData(ms: seq<Member>): bytes {
    if ms == [] then [] else ms[0].data + JoinData(ms[1..])
  }

  function JoinPlain(ms: seq<Member>): bytes {
    if ms == [] then [] else ms[0].plain + JoinPlain(ms[1..])
  }

  predicate NoEmptyMember(ms: seq<Member>) {
    forall k :: 0 <= k < |ms| ==> ms[k].data != []
  }

  /** A payload of whole members, or one cut short within its last member. */
  predicate IsPayload(ms: seq<Member>, cut: nat, input: bytes) {
    && NoEmptyMember(ms)
    && (cut > 0 ==> ms != [] && cut < |ms[|ms| - 1].data|)
    && |input| + cut == |JoinData(ms)| && input <= JoinData(ms)
  }

  datatype GzipError = MessageTooLarge | EndedEarly | NoProgress

  /** Decompressing without a limit: everything, or an error for a payload that was cut short. */
  function Unbounded(ms: seq<Member>, cut: nat): Result<bytes, GzipError> {
    if cut == 0 then Ok(JoinPlain(ms)) else Err(EndedEarly)
  }

  /**
   * What is left of a payload while the decompressor is within a member: the rest of its data and
   * the members after it, less what was cut.
   */
  predicate Remains(data: bytes, later: seq<Member>, cut: nat, input: bytes) {
    && data != [] && input != [] && NoEmptyMember(later)
    && |input| + cut == |data| + |JoinData(later)| && input <= data + JoinData(later)
    && (cut > 0 && later != [] ==> cut < |later[|later| - 1].data|)
  }

  lemma {:induction false} LastWithin(ms: seq<Member>)
    requires ms != []
    ensures |ms[|ms| - 1].data| <= |JoinData(ms)|
    decreases |ms|
  {
    if |ms| > 1 {
      LastWithin(ms[1..]);
    } else {
      assert JoinData(ms) == ms[0].data + JoinData(ms[1..]);
    }
  }

  lemma RemainsAtStart(ms: seq<Member>, cut: nat, input: bytes)
    requires IsPayload(ms, cut, input) && input != []
    ensures ms != [] && Remains(ms[0].data, ms[1..], cut, input)
  {
    assert ms != [];
    assert ms[1..] != [] ==> ms[1..][|ms| - 2] == ms[|ms| - 1];
  }

  /** A member's data is all there unless it is the last one and it was cut. */
  lemma WholeOrCut(data: bytes, later: seq<Member>, cut: nat, input: bytes)
    requires Remains(data, later, cut, input)
    ensures data <= input || (later == [] && input < data)
  {
    if later != [] {
      LastWithin(later);
    }
    assert forall k :: 0 <= k < |input| ==> input[k] == (data + JoinData(later))[k];
  }

  /** After the last byte of a member, nothing is left exactly when it was the last member. */
  lemma RemainsNext(data: bytes, later: seq<Member>, cut: nat, input: bytes)
    requires Remains(data, later, cut, input) && data <= input
    ensures later == [] <==> input[|data|..] == []
    ensures later == [] ==> cut == 0
    ensures later != [] ==> Remains(later[0].data, later[1..], cut, input[|data|..])
  {
    if later != [] {
      LastWithin(later);
      assert later[0].data != [];
      assert later[1..] != [] ==> later[1..][|later| - 2] == later[|later| - 1];
    }
  }

  lemma RemainsWithin(data: bytes, later: seq<Member>, cut: nat, input: bytes, consumed: nat)
    requires Remains(data, later, cut, input) && consumed < |data| && consumed <= |input|
    ensures input[consumed..] == [] ==> cut > 0
    ensures input[consumed..] != [] ==> Remains(data[consumed..], later, cut, input[consumed..])
  {
    assert data[consumed..] + JoinData(later) == (data + JoinData(later))[consumed..];
    if later != [] {
      LastWithin(later);
    }
  }

  /** What has been put out, with what the current member and the later ones will put out, is everything. */
  predicate Accounts(parts: bytes, plain: bytes, later: seq<Member>, ms: seq<Member>) {
    parts + (plain + JoinPlain(later)) == JoinPlain(ms)
  }

  lemma AccountsAfterOutput(parts: bytes, out: bytes, before: bytes, plain: bytes, later: seq<Member>, ms: seq<Member>)
    requires Accounts(parts, before, later, ms) && out + plain == before
    ensures Accounts(parts + out, plain, later, ms)
    ensures |parts| + |out| <= |JoinPlain(ms)|
  {
    var rest := JoinPlain(later);
    assert (parts + out) + (plain + rest) == parts + ((out + plain) + rest);
  }

  lemma AccountsAfterMember(parts: bytes, later: seq<Member>, ms: seq<Member>)
    requires Accounts(parts, [], later, ms)
    ensures later == [] ==> parts == JoinPlain(ms)
    ensures later != [] ==> Accounts(parts, later[0].plain, later[1..], ms)
  {
  }

  lemma EmptyPayload(ms: seq<Member>, cut: nat)
    requires IsPayload(ms, cut, [])
    ensures ms == [] && cut == 0
  {
    if ms != [] {
      LastWithin(ms);
    }
  }

  /**
   * `GzipCompression.decompress` with a limit: the same as without one, unless the result is over
   * the limit. It never holds more than one byte over the limit.
   */
  method Decompress(inflate: Inflate, ms: seq<Member>, cut: nat, input: bytes, limit: nat)
    returns (result: Result<bytes, GzipError>, total: nat)
    requires Honest(inflate) && IsPayload(ms, cut, input)
    ensures total <= limit + 1
    ensures result.Ok? <==> cut == 0 && |JoinPlain(ms)| <= limit
    ensures result == Unbounded(ms, cut) || (result == Err(MessageTooLarge) && |JoinPlain(ms)| > limit)
    ensures result.Ok? ==> result.value == JoinPlain(ms)
    ensures result.Err? && |JoinPlain(ms)| <= limit ==> result == Err(EndedEarly)
  {
    if input == [] {
      EmptyPayload(ms, cut);
      return Ok([]), 0;
    }
    RemainsAtStart(ms, cut, input);
    var parts: bytes := [];
    total := 0;
    var later := ms[1..];
    var decompressor := new Decompressor(inflate, ms[0]);
    var remaining := input;
    while true
      invariant fresh(decompressor) && decompressor.inflate == inflate && !decompressor.eof
      invariant total == |parts| <= limit
      invariant Remains(decompressor.data, later, cut, remaining)
      invariant Accounts(parts, decompressor.plain, later, ms)
      decreases limit - total + |remaining|
    {
      ghost var data, plain := decompressor.data, decompressor.plain;
      WholeOrCut(data, later, cut, remaining);
      var out := decompressor.Decompress(remaining, limit + 1 - total);
      AccountsAfterOutput(parts, out, plain, decompressor.plain, later, ms);
      total := total + |out|;
      parts := parts + out;
      if total > limit {
        return Err(MessageTooLarge), total;
      }
      if decompressor.eof {
        RemainsNext(data, later, cut, remaining);
        AccountsAfterMember(parts, later, ms);
        remaining := decompressor.unusedData;
        if remaining == [] {
          return Ok(parts), total;
        }
        decompressor := new Decompressor(inflate, later[0]);
        later := later[1..];
      } else {
        var tail := decompressor.unconsumedTail;
        RemainsWithin(data, later, cut, remaining, |data| - |decompressor.data|);
        if tail == [] {
          return Err(EndedEarly), total;
        }
        if out == [] && |tail| == |remaining| {
          return Err(NoProgress), total;
        }
        remaining := tail;
      }
    }
  }
}
