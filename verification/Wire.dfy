/** The byte encoding of consensus messages. A reader takes a byte string and
    yields a value together with the bytes it did not consume. */
module Wire {
  import opened Config
  import opened Messages
  import opened Collections
  import Bitset

  datatype Read<+T> = Done(value: T, rest: Bytes) | Bad {
    predicate IsFailure() { Bad? }
    function PropagateFailure<U>(): Read<U> requires Bad? { Bad }
    function Extract(): (T, Bytes) requires Done? { (value, rest) }
  }

  // ------------------------------------------------------ primitive fields

  function ReadBytes(n: nat, b: Bytes): (r: Read<Bytes>)
    ensures r.Done? ==> |r.value| == n && b == r.value + r.rest
    ensures r.Done? <==> |b| >= n
  {
    if |b| < n then Bad else Done(b[..n], b[n..])
  }

  lemma ReadBytesOf(a: Bytes, s: Bytes)
    ensures ReadBytes(|a|, a + s) == Done(a, s)
  {
    assert (a + s)[..|a|] == a && (a + s)[|a|..] == s;
  }

  function Pow256(k: nat): (p: nat)
    ensures p >= 1
  {
    if k == 0 then 1 else 256 * Pow256(k - 1)
  }

  /** The `k` low bytes of `n`, least significant first. */
  function LeBytes(n: nat, k: nat): (b: Bytes)
    ensures |b| == k
  {
    if k == 0 then [] else [n % 256] + LeBytes(n / 256, k - 1)
  }

  function LeNat(b: Bytes): nat {
    if b == [] then 0 else b[0] + 256 * LeNat(b[1..])
  }

  lemma {:induction false} LeRoundTrip(n: nat, k: nat)
    requires n < Pow256(k)
    ensures LeNat(LeBytes(n, k)) == n
  {
    if k > 0 {
      assert n / 256 < Pow256(k - 1);
      LeRoundTrip(n / 256, k - 1);
      assert LeBytes(n, k)[1..] == LeBytes(n / 256, k - 1);
    }
  }

  lemma {:induction false} LeCanonical(b: Bytes)
    ensures LeNat(b) < Pow256(|b|) && LeBytes(LeNat(b), |b|) == b
  {
    if b != [] {
      LeCanonical(b[1..]);
      LowByte(b[0], LeNat(b[1..]));
      assert LeBytes(LeNat(b), |b|) == [b[0]] + LeBytes(LeNat(b[1..]), |b| - 1);
    }
  }

  /** Byte `i` of a number holds its digit of weight 256 to the `i`. */
  lemma {:induction false} LittleEndian(n: nat, k: nat, i: nat)
    requires i < k
    ensures LeBytes(n, k)[i] == n / Pow256(i) % 256
  {
    if i > 0 {
      LittleEndian(n / 256, k - 1, i - 1);
      DivDiv(n, Pow256(i - 1));
    }
  }

  lemma DivDiv(n: nat, p: nat)
    requires p >= 1
    ensures n / (256 * p) == n / 256 / p
  {
    var q, r := n / 256 / p, n / 256 % p;
    assert n / 256 == p * q + r;
    var low := n % 256;
    assert n == (256 * p) * q + (256 * r + low);
    Bitset.DivModUnique(n, 256 * p, q, 256 * r + low);
  }

  lemma LowByte(low: Byte, high: nat)
    ensures (low + 256 * high) % 256 == low && (low + 256 * high) / 256 == high
  {
  }

  lemma Widths()
    ensures Pow256(2) == 0x1_0000 && Pow256(4) == 0x1_0000_0000
    ensures Pow256(8) == 0x1_0000_0000_0000_0000
  {
    assert Pow256(2) == 256 * Pow256(1);
    assert Pow256(4) == 256 * Pow256(3);
    assert Pow256(6) == 256 * Pow256(5);
    assert Pow256(8) == 256 * Pow256(7);
  }

  function ReadU8(b: Bytes): (r: Read<Byte>)
    ensures r.Done? ==> b == [r.value] + r.rest
  {
    if b == [] then Bad else Done(b[0], b[1..])
  }

  function WriteU64(n: U64): Bytes { LeBytes(n, 8) }

  function ReadU64(b: Bytes): (r: Read<U64>) {
    var (x, rest) :- ReadBytes(8, b);
    LeCanonical(x); Widths();
    Done(LeNat(x), rest)
  }

  lemma U64RoundTrip(n: U64, s: Bytes)
    ensures ReadU64(WriteU64(n) + s) == Done(n, s)
  {
    Widths();
    LeRoundTrip(n, 8);
    ReadBytesOf(WriteU64(n), s);
  }

  lemma U64Canonical(b: Bytes)
    ensures ReadU64(b).Done? ==> b == WriteU64(ReadU64(b).value) + ReadU64(b).rest
  {
    if ReadU64(b).Done? { LeCanonical(ReadBytes(8, b).value); }
  }

  // ------------------------------------------------------------------ vote

  function WriteVote(v: Vote): (b: Bytes)
    ensures |b| >= 1
  {
    match v
    case NoCandidate => [0]
    case Valid(hash) => [1] + hash
    case Invalid(hash) => [2] + hash
    case NoQuorum => [3]
  }

  function ReadVote(b: Bytes): Read<Vote> {
    var (tag, b1) :- ReadU8(b);
    match tag
    case 0 => Done(NoCandidate, b1)
    case 1 => (var (hash, b2) :- ReadBytes(32, b1); Done(Valid(hash), b2))
    case 2 => (var (hash, b2) :- ReadBytes(32, b1); Done(Invalid(hash), b2))
    case 3 => Done(NoQuorum, b1)
    case _ => Bad
  }

  lemma VoteRoundTrip(v: Vote, s: Bytes)
    ensures ReadVote(WriteVote(v) + s) == Done(v, s)
  {
    var b := WriteVote(v) + s;
    assert b[1..] == WriteVote(v)[1..] + s;
    if v.Valid? || v.Invalid? {
      assert WriteVote(v)[1..] == v.hash;
      ReadBytesOf(v.hash, s);
    } else {
      assert b[1..] == s;
    }
  }

  lemma VoteCanonical(b: Bytes)
    ensures ReadVote(b).Done? ==> b == WriteVote(ReadVote(b).value) + ReadVote(b).rest
  {
  }

  // ---------------------------------------------------------------- header

  function WriteHeader(h: ConsensusHeader): (b: Bytes)
    ensures |b| == 41
  {
    h.prevBlockHash + WriteU64(h.round) + [h.iteration]
  }

  function ReadHeader(b: Bytes): Read<ConsensusHeader> {
    var (hash, b1) :- ReadBytes(32, b);
    var (round, b2) :- ReadU64(b1);
    var (iteration, b3) :- ReadU8(b2);
    Done(ConsensusHeader(hash, round, iteration), b3)
  }

  lemma HeaderRoundTrip(h: ConsensusHeader, s: Bytes)
    ensures ReadHeader(WriteHeader(h) + s) == Done(h, s)
  {
    var tail := [h.iteration] + s;
    var mid := WriteU64(h.round) + tail;
    assert WriteHeader(h) + s == h.prevBlockHash + mid;
    ReadBytesOf(h.prevBlockHash, mid);
    U64RoundTrip(h.round, tail);
    assert tail[1..] == s;
  }

  lemma HeaderCanonical(b: Bytes)
    ensures ReadHeader(b).Done? ==> b == WriteHeader(ReadHeader(b).value) + ReadHeader(b).rest
  {
    if ReadHeader(b).Done? { U64Canonical(ReadBytes(32, b).rest); }
  }

  // ------------------------------------------------------------ step votes

  function WriteStepVotes(sv: StepVotes): Bytes {
    WriteU64(sv.bitset) + sv.aggregateSignature
  }

  function ReadStepVotes(b: Bytes): Read<StepVotes> {
    var (bitset, b1) :- ReadU64(b);
    var (signature, b2) :- ReadBytes(48, b1);
    Done(StepVotes(bitset, signature), b2)
  }

  lemma StepVotesRoundTrip(sv: StepVotes, s: Bytes)
    ensures ReadStepVotes(WriteStepVotes(sv) + s) == Done(sv, s)
  {
    var tail := sv.aggregateSignature + s;
    assert WriteStepVotes(sv) + s == WriteU64(sv.bitset) + tail;
    U64RoundTrip(sv.bitset, tail);
    ReadBytesOf(sv.aggregateSignature, s);
  }

  lemma StepVotesCanonical(b: Bytes)
    ensures ReadStepVotes(b).Done? ==>
              b == WriteStepVotes(ReadStepVotes(b).value) + ReadStepVotes(b).rest
  {
    if ReadStepVotes(b).Done? { U64Canonical(b); }
  }

  // ----------------------------------------------------------- attestation

  function WriteRatificationResult(r: RatificationResult): Bytes {
    [if r.Fail? then 0 else 1] + WriteVote(r.vote)
  }

  function ReadRatificationResult(b: Bytes): Read<RatificationResult> {
    var (tag, b1) :- ReadU8(b);
    match tag
    case 0 => (var (vote, b2) :- ReadVote(b1); Done(Fail(vote), b2))
    case 1 => (var (vote, b2) :- ReadVote(b1); Done(Success(vote), b2))
    case _ => Bad
  }

  lemma RatificationResultRoundTrip(r: RatificationResult, s: Bytes)
    ensures ReadRatificationResult(WriteRatificationResult(r) + s) == Done(r, s)
  {
    assert (WriteRatificationResult(r) + s)[1..] == WriteVote(r.vote) + s;
    VoteRoundTrip(r.vote, s);
  }

  function WriteAttestation(a: Attestation): Bytes {
    WriteRatificationResult(a.result) + WriteStepVotes(a.validation) + WriteStepVotes(a.ratification)
  }

  function ReadAttestation(b: Bytes): Read<Attestation> {
    var (result, b1) :- ReadRatificationResult(b);
    var (validation, b2) :- ReadStepVotes(b1);
    var (ratification, b3) :- ReadStepVotes(b2);
    Done(Attestation(result, validation, ratification), b3)
  }

  lemma AttestationRoundTrip(a: Attestation, s: Bytes)
    ensures ReadAttestation(WriteAttestation(a) + s) == Done(a, s)
  {
    hide ReadStepVotes, WriteStepVotes, ReadRatificationResult, WriteRatificationResult;
    var tail := WriteStepVotes(a.ratification) + s;
    var mid := WriteStepVotes(a.validation) + tail;
    assert WriteAttestation(a) + s == WriteRatificationResult(a.result) + mid;
    RatificationResultRoundTrip(a.result, mid);
    StepVotesRoundTrip(a.validation, tail);
    StepVotesRoundTrip(a.ratification, s);
  }

  lemma AttestationCanonical(b: Bytes)
    ensures ReadAttestation(b).Done? ==>
              b == WriteAttestation(ReadAttestation(b).value) + ReadAttestation(b).rest
  {
    if ReadAttestation(b).Done? {
      var b1 := ReadRatificationResult(b).rest;
      VoteCanonical(b[1..]);
      StepVotesCanonical(b1);
      StepVotesCanonical(ReadStepVotes(b1).rest);
    }
  }

  // ------------------------------------------------------- iterations info

  type IterationInfo = (Attestation, PublicKeyBytes)

  function WriteIteration(i: Option<IterationInfo>): Bytes {
    match i
    case Some((att, pk)) => [1] + WriteAttestation(att) + pk
    case None => [0]
  }

  function WriteIterations(list: seq<Option<IterationInfo>>): Bytes {
    if list == [] then [] else WriteIteration(list[0]) + WriteIterations(list[1..])
  }

  /** The count is written as `len as u8`. */
  function WriteIterationsInfo(list: seq<Option<IterationInfo>>): Bytes {
    [|list| % 256] + WriteIterations(list)
  }

  function ReadIteration(b: Bytes): Read<Option<IterationInfo>> {
    var (opt, b1) :- ReadU8(b);
    match opt
    case 0 => Done(None, b1)
    case 1 => (
      var (att, b2) :- ReadAttestation(b1);
      var (pk, b3) :- ReadBytes(96, b2);
      Done(Some((att, pk)), b3))
    case _ => Bad
  }

  function ReadIterations(count: nat, b: Bytes): (r: Read<seq<Option<IterationInfo>>>)
    ensures r.Done? ==> |r.value| == count
  {
    if count == 0 then Done([], b) else
      var (first, b1) :- ReadIteration(b);
      var (others, b2) :- ReadIterations(count - 1, b1);
      Done([first] + others, b2)
  }

  function ReadIterationsInfo(b: Bytes): Read<seq<Option<IterationInfo>>> {
    var (count, b1) :- ReadU8(b);
    if count > MESSAGE_MAX_FAILED_ITERATIONS then Bad else ReadIterations(count, b1)
  }

  lemma IterationRoundTrip(i: Option<IterationInfo>, s: Bytes)
    ensures ReadIteration(WriteIteration(i) + s) == Done(i, s)
  {
    hide ReadAttestation, WriteAttestation;
    var b := WriteIteration(i) + s;
    if i.Some? {
      var (att, pk) := i.value;
      assert b[1..] == WriteAttestation(att) + (pk + s);
      AttestationRoundTrip(att, pk + s);
      ReadBytesOf(pk, s);
    } else {
      assert b[1..] == s;
    }
  }

  lemma {:induction false} IterationsRoundTrip(list: seq<Option<IterationInfo>>, s: Bytes)
    ensures ReadIterations(|list|, WriteIterations(list) + s) == Done(list, s)
  {
    hide ReadIteration, WriteIteration;
    if list == [] {
      assert WriteIterations(list) + s == s;
    } else {
      var tail := WriteIterations(list[1..]) + s;
      assert WriteIterations(list) + s == WriteIteration(list[0]) + tail;
      IterationRoundTrip(list[0], tail);
      IterationsRoundTrip(list[1..], s);
      assert list == [list[0]] + list[1..];
    }
  }

  /** The list survives the trip exactly when it has at most eight entries: a
      longer one is refused, or cut short when its length wraps around. */
  lemma IterationsInfoRoundTrip(list: seq<Option<IterationInfo>>, s: Bytes)
    ensures ReadIterationsInfo(WriteIterationsInfo(list) + s) == Done(list, s)
            <==> |list| <= 8
  {
    hide ReadIterations, WriteIterations;
    var b := WriteIterationsInfo(list) + s;
    assert b[1..] == WriteIterations(list) + s;
    if |list| <= MESSAGE_MAX_FAILED_ITERATIONS {
      IterationsRoundTrip(list, s);
    }
  }

  lemma IterationCanonical(b: Bytes)
    ensures ReadIteration(b).Done? ==>
              b == WriteIteration(ReadIteration(b).value) + ReadIteration(b).rest
  {
    hide ReadAttestation, WriteAttestation;
    if ReadIteration(b).Done? && b[0] == 1 { AttestationCanonical(b[1..]); }
  }

  lemma {:induction false} IterationsCanonical(count: nat, b: Bytes)
    ensures var r := ReadIterations(count, b);
            r.Done? ==> b == WriteIterations(r.value) + r.rest
  {
    hide ReadIteration, WriteIteration;
    var r := ReadIterations(count, b);
    if count > 0 && r.Done? {
      var first := ReadIteration(b);
      IterationCanonical(b);
      IterationsCanonical(count - 1, first.rest);
      var others := ReadIterations(count - 1, first.rest).value;
      assert r.value[1..] == others && r.value[0] == first.value;
    }
  }

  lemma {:induction false} WriteIterationsSnoc(list: seq<Option<IterationInfo>>, i: Option<IterationInfo>)
    ensures WriteIterations(list + [i]) == WriteIterations(list) + WriteIteration(i)
  {
    hide WriteIteration;
    if list == [] {
      assert [i][1..] == [];
    } else {
      assert (list + [i])[1..] == list[1..] + [i];
      WriteIterationsSnoc(list[1..], i);
    }
  }

  method AppendIteration(stream: Bytes, i: Option<IterationInfo>) returns (r: Bytes)
    ensures r == stream + WriteIteration(i)
  {
    hide WriteAttestation;
    if i.Some? {
      r := stream + [1];
      r := r + WriteAttestation(i.value.0);
      r := r + i.value.1;
    } else {
      r := stream + [0];
    }
  }

  /** `IterationsInfo::write` as it appends to the stream. */
  method WriteIterationsInfoLoop(list: seq<Option<IterationInfo>>) returns (stream: Bytes)
    ensures stream == WriteIterationsInfo(list)
  {
    hide WriteIteration;
    stream := [|list| % 256];
    for i := 0 to |list|
      invariant stream == [|list| % 256] + WriteIterations(list[..i])
    {
      WriteIterationsSnoc(list[..i], list[i]);
      assert list[..i + 1] == list[..i] + [list[i]];
      stream := AppendIteration(stream, list[i]);
    }
    assert list[..|list|] == list;
  }

  /** `IterationsInfo::read` as it loops over the stream. */
  method ReadIterationsInfoLoop(b: Bytes) returns (r: Read<seq<Option<IterationInfo>>>)
    ensures r == ReadIterationsInfo(b)
  {
    hide ReadIteration;
    var head := ReadU8(b);
    if head.Bad? { return Bad; }
    if head.value > MESSAGE_MAX_FAILED_ITERATIONS { return Bad; }
    var attList: seq<Option<IterationInfo>> := [];
    var stream := head.rest;
    ghost var whole := ReadIterations(head.value, head.rest);
    assert whole.Done? ==> attList + whole.value == whole.value;
    for i := 0 to head.value
      invariant |attList| == i
      invariant var todo := ReadIterations(head.value - i, stream);
        if todo.Done? then whole == Done(attList + todo.value, todo.rest) else whole.Bad?
    {
      var item := ReadIteration(stream);
      if item.Bad? { return Bad; }
      assert forall others :: attList + ([item.value] + others) == (attList + [item.value]) + others;
      attList := attList + [item.value];
      stream := item.rest;
    }
    assert attList + [] == attList;
    return Done(attList, stream);
  }

  // ----------------------------------------------------- validation result

  function WriteQuorumType(q: QuorumType): Byte {
    match q
    case ValidQuorum => 0
    case InvalidQuorum => 1
    case NoCandidateQuorum => 2
    case NoQuorumType => 255
  }

  function QuorumTypeOf(b: Byte): QuorumType {
    match b
    case 0 => ValidQuorum
    case 1 => InvalidQuorum
    case 2 => NoCandidateQuorum
    case _ => NoQuorumType
  }

  function WriteValidationResult(v: ValidationResult): Bytes {
    WriteStepVotes(v.sv) + WriteVote(v.vote) + [WriteQuorumType(v.quorum)]
  }

  function ReadValidationResult(b: Bytes): Read<ValidationResult> {
    var (sv, b1) :- ReadStepVotes(b);
    var (vote, b2) :- ReadVote(b1);
    var (quorum, b3) :- ReadU8(b2);
    Done(ValidationResult(QuorumTypeOf(quorum), vote, sv), b3)
  }

  lemma ValidationResultRoundTrip(v: ValidationResult, s: Bytes)
    ensures ReadValidationResult(WriteValidationResult(v) + s) == Done(v, s)
  {
    hide ReadStepVotes, WriteStepVotes, ReadVote, WriteVote;
    var tail := [WriteQuorumType(v.quorum)] + s;
    var mid := WriteVote(v.vote) + tail;
    assert WriteValidationResult(v) + s == WriteStepVotes(v.sv) + mid;
    StepVotesRoundTrip(v.sv, mid);
    VoteRoundTrip(v.vote, tail);
    assert tail[1..] == s;
  }

  /** Reading forgets unknown quorum bytes: the bytes are reproduced exactly when
      the last byte read is one of the four a writer emits. */
  lemma ValidationResultCanonical(b: Bytes)
    requires ReadValidationResult(b).Done?
    ensures var r := ReadValidationResult(b);
            |r.rest| < |b| &&
            (b == WriteValidationResult(r.value) + r.rest
             <==> b[|b| - |r.rest| - 1] in {0, 1, 2, 255})
  {
    hide ReadStepVotes, WriteStepVotes, ReadVote, WriteVote;
    var sv := ReadStepVotes(b);
    var vote := ReadVote(sv.rest);
    StepVotesCanonical(b);
    VoteCanonical(sv.rest);
    var quorum := ReadU8(vote.rest);
    var front := WriteStepVotes(sv.value) + WriteVote(vote.value);
    assert b == front + [quorum.value] + quorum.rest;
    var r := ReadValidationResult(b);
    assert r.rest == quorum.rest && |b| - |r.rest| - 1 == |front|;
    var again := WriteValidationResult(r.value) + r.rest;
    assert again == front + [WriteQuorumType(QuorumTypeOf(quorum.value))] + quorum.rest;
    assert b[|front|] == quorum.value;
    assert again[|front|] == WriteQuorumType(QuorumTypeOf(quorum.value));
  }

  // --------------------------------------------------------- step messages

  datatype SignInfo = SignInfo(signer: PublicKeyBytes, signature: Signature)

  function WriteSignInfo(i: SignInfo): Bytes {
    i.signer + i.signature
  }

  /** `isKey` tells which 96-byte strings decode to a public key. */
  function ReadSignInfo(isKey: PublicKeyBytes -> bool, b: Bytes): Read<SignInfo> {
    var (signer, b1) :- ReadBytes(96, b);
    if !isKey(signer) then Bad else
      var (signature, b2) :- ReadBytes(48, b1);
      Done(SignInfo(signer, signature), b2)
  }

  lemma SignInfoRoundTrip(isKey: PublicKeyBytes -> bool, i: SignInfo, s: Bytes)
    requires isKey(i.signer)
    ensures ReadSignInfo(isKey, WriteSignInfo(i) + s) == Done(i, s)
  {
    var tail := i.signature + s;
    assert WriteSignInfo(i) + s == i.signer + tail;
    ReadBytesOf(i.signer, tail);
    ReadBytesOf(i.signature, s);
  }

  datatype ValidationMsg = ValidationMsg(header: ConsensusHeader, vote: Vote, signInfo: SignInfo)

  function WriteValidation(v: ValidationMsg): Bytes {
    WriteHeader(v.header) + WriteVote(v.vote) + WriteSignInfo(v.signInfo)
  }

  function ReadValidation(isKey: PublicKeyBytes -> bool, b: Bytes): Read<ValidationMsg> {
    var (header, b1) :- ReadHeader(b);
    var (vote, b2) :- ReadVote(b1);
    var (signInfo, b3) :- ReadSignInfo(isKey, b2);
    Done(ValidationMsg(header, vote, signInfo), b3)
  }

  lemma ValidationRoundTrip(isKey: PublicKeyBytes -> bool, v: ValidationMsg, s: Bytes)
    requires isKey(v.signInfo.signer)
    ensures ReadValidation(isKey, WriteValidation(v) + s) == Done(v, s)
  {
    hide ReadHeader, WriteHeader, ReadVote, WriteVote, ReadSignInfo, WriteSignInfo;
    var tail := WriteSignInfo(v.signInfo) + s;
    var mid := WriteVote(v.vote) + tail;
    assert WriteValidation(v) + s == WriteHeader(v.header) + mid;
    HeaderRoundTrip(v.header, mid);
    VoteRoundTrip(v.vote, tail);
    SignInfoRoundTrip(isKey, v.signInfo, s);
  }

  datatype RatificationMsg = RatificationMsg(
    header: ConsensusHeader, vote: Vote, timestamp: U64,
    validationResult: ValidationResult, signInfo: SignInfo)

  function WriteRatification(v: RatificationMsg): Bytes {
    WriteHeader(v.header) + WriteVote(v.vote) + WriteU64(v.timestamp)
    + WriteValidationResult(v.validationResult) + WriteSignInfo(v.signInfo)
  }

  function ReadRatification(isKey: PublicKeyBytes -> bool, b: Bytes): Read<RatificationMsg> {
    var (header, b1) :- ReadHeader(b);
    var (vote, b2) :- ReadVote(b1);
    var (timestamp, b3) :- ReadU64(b2);
    var (result, b4) :- ReadValidationResult(b3);
    var (signInfo, b5) :- ReadSignInfo(isKey, b4);
    Done(RatificationMsg(header, vote, timestamp, result, signInfo), b5)
  }

  lemma RatificationRoundTrip(isKey: PublicKeyBytes -> bool, v: RatificationMsg, s: Bytes)
    requires isKey(v.signInfo.signer)
    ensures ReadRatification(isKey, WriteRatification(v) + s) == Done(v, s)
  {
    hide ReadHeader, WriteHeader, ReadVote, WriteVote, ReadU64, WriteU64, ReadSignInfo, WriteSignInfo,
      ReadValidationResult, WriteValidationResult;
    var t4 := WriteSignInfo(v.signInfo) + s;
    var t3 := WriteValidationResult(v.validationResult) + t4;
    var t2 := WriteU64(v.timestamp) + t3;
    var t1 := WriteVote(v.vote) + t2;
    assert WriteRatification(v) + s == WriteHeader(v.header) + t1;
    HeaderRoundTrip(v.header, t1);
    VoteRoundTrip(v.vote, t2);
    U64RoundTrip(v.timestamp, t3);
    ValidationResultRoundTrip(v.validationResult, t4);
    SignInfoRoundTrip(isKey, v.signInfo, s);
  }

  function WriteQuorum(q: Quorum): Bytes {
    WriteHeader(q.header) + WriteAttestation(q.att)
  }

  function ReadQuorum(b: Bytes): Read<Quorum> {
    var (header, b1) :- ReadHeader(b);
    var (att, b2) :- ReadAttestation(b1);
    Done(Quorum(header, att), b2)
  }

  lemma QuorumRoundTrip(q: Quorum, s: Bytes)
    ensures ReadQuorum(WriteQuorum(q) + s) == Done(q, s)
  {
    hide ReadAttestation, WriteAttestation, ReadHeader, WriteHeader;
    var tail := WriteAttestation(q.att) + s;
    assert WriteQuorum(q) + s == WriteHeader(q.header) + tail;
    HeaderRoundTrip(q.header, tail);
    AttestationRoundTrip(q.att, s);
  }

  lemma QuorumCanonical(b: Bytes)
    ensures ReadQuorum(b).Done? ==> b == WriteQuorum(ReadQuorum(b).value) + ReadQuorum(b).rest
  {
    hide ReadAttestation, WriteAttestation, ReadHeader, WriteHeader;
    if ReadQuorum(b).Done? {
      HeaderCanonical(b);
      AttestationCanonical(ReadHeader(b).rest);
    }
  }

  // ------------------------------------------------------------- inventory

  datatype InvType =
    | MempoolTx | BlockFromHash | BlockFromHeight
    | CandidateFromHash | CandidateFromIteration | ValidationResultInv

  datatype InvParam = ByHash(hash: Hash) | ByHeight(height: U64) | ByIteration(header: ConsensusHeader)

  datatype InvVect = InvVect(invType: InvType, param: InvParam)

  datatype Inv = Inv(list: seq<InvVect>, maxEntries: U16)

  function InvTag(t: InvType): Byte {
    match t
    case MempoolTx => 0
    case BlockFromHash => 1
    case BlockFromHeight => 2
    case CandidateFromHash => 3
    case CandidateFromIteration => 4
    case ValidationResultInv => 5
  }

  function WriteParam(p: InvParam): Bytes {
    match p
    case ByHash(hash) => hash
    case ByHeight(height) => WriteU64(height)
    case ByIteration(header) => WriteHeader(header)
  }

  function WriteItem(v: InvVect): Bytes {
    [InvTag(v.invType)] + WriteParam(v.param)
  }

  function WriteItems(list: seq<InvVect>): Bytes {
    if list == [] then [] else WriteItem(list[0]) + WriteItems(list[1..])
  }

  /** The length is written as `len as u32`. */
  function WriteInv(inv: Inv): Bytes {
    LeBytes(|inv.list|, 4) + WriteItems(inv.list) + LeBytes(inv.maxEntries, 2)
  }

  function ReadItem(b: Bytes): Read<InvVect> {
    var (tag, b1) :- ReadU8(b);
    match tag
    case 0 => (var (hash, b2) :- ReadBytes(32, b1); Done(InvVect(MempoolTx, ByHash(hash)), b2))
    case 1 => (var (hash, b2) :- ReadBytes(32, b1); Done(InvVect(BlockFromHash, ByHash(hash)), b2))
    case 2 => (var (height, b2) :- ReadU64(b1); Done(InvVect(BlockFromHeight, ByHeight(height)), b2))
    case 3 => (var (hash, b2) :- ReadBytes(32, b1); Done(InvVect(CandidateFromHash, ByHash(hash)), b2))
    case 4 => (
      var (header, b2) :- ReadHeader(b1);
      Done(InvVect(CandidateFromIteration, ByIteration(header)), b2))
    case 5 => (
      var (header, b2) :- ReadHeader(b1);
      Done(InvVect(ValidationResultInv, ByIteration(header)), b2))
    case _ => Bad
  }

  function ReadItems(count: nat, b: Bytes): (r: Read<seq<InvVect>>)
    ensures r.Done? ==> |r.value| == count && forall v | v in r.value :: WellTyped(v)
  {
    if count == 0 then Done([], b) else
      var (first, b1) :- ReadItem(b);
      var (others, b2) :- ReadItems(count - 1, b1);
      Done([first] + others, b2)
  }

  function ReadInv(b: Bytes): Read<Inv> {
    var (len, b1) :- ReadBytes(4, b);
    var (list, b2) :- ReadItems(LeNat(len), b1);
    var (max, b3) :- ReadBytes(2, b2);
    LeCanonical(max); Widths();
    Done(Inv(list, LeNat(max)), b3)
  }

  /** The parameter is of the kind its type is looked up by. */
  predicate WellTyped(v: InvVect) {
    match v.invType
    case MempoolTx => v.param.ByHash?
    case BlockFromHash => v.param.ByHash?
    case BlockFromHeight => v.param.ByHeight?
    case CandidateFromHash => v.param.ByHash?
    case CandidateFromIteration => v.param.ByIteration?
    case ValidationResultInv => v.param.ByIteration?
  }

  lemma ItemRoundTrip(v: InvVect, s: Bytes)
    requires WellTyped(v)
    ensures ReadItem(WriteItem(v) + s) == Done(v, s)
  {
    var b := WriteItem(v) + s;
    assert b[1..] == WriteParam(v.param) + s;
    match v.param
    case ByHash(hash) => ReadBytesOf(hash, s);
    case ByHeight(height) => U64RoundTrip(height, s);
    case ByIteration(header) => HeaderRoundTrip(header, s);
  }

  lemma {:induction false} ItemsRoundTrip(list: seq<InvVect>, s: Bytes)
    requires forall v | v in list :: WellTyped(v)
    ensures ReadItems(|list|, WriteItems(list) + s) == Done(list, s)
  {
    hide ReadItem, WriteItem, WellTyped;
    if list == [] {
      assert WriteItems(list) + s == s;
    } else {
      var tail := WriteItems(list[1..]) + s;
      assert WriteItems(list) + s == WriteItem(list[0]) + tail;
      assert WellTyped(list[0]);
      ItemRoundTrip(list[0], tail);
      ItemsRoundTrip(list[1..], s);
      assert list == [list[0]] + list[1..];
    }
  }

  /** An inventory survives the trip exactly when every entry is well typed and
      the number of entries fits its 32-bit field. */
  lemma InvRoundTrip(inv: Inv, s: Bytes)
    ensures ReadInv(WriteInv(inv) + s) == Done(inv, s)
            <==> (forall v | v in inv.list :: WellTyped(v)) && |inv.list| < 0x1_0000_0000
  {
    var t2 := LeBytes(inv.maxEntries, 2) + s;
    var t1 := WriteItems(inv.list) + t2;
    var len := LeBytes(|inv.list|, 4);
    assert WriteInv(inv) + s == len + t1;
    ReadBytesOf(len, t1);
    Widths();
    LeCanonical(len);
    if |inv.list| < 0x1_0000_0000 {
      LeRoundTrip(|inv.list|, 4);
      if forall v | v in inv.list :: WellTyped(v) {
        ItemsRoundTrip(inv.list, t2);
        ReadBytesOf(LeBytes(inv.maxEntries, 2), s);
        LeRoundTrip(inv.maxEntries, 2);
      }
    }
  }

  lemma {:induction false} WriteItemsSnoc(list: seq<InvVect>, v: InvVect)
    ensures WriteItems(list + [v]) == WriteItems(list) + WriteItem(v)
  {
    hide WriteItem;
    if list == [] {
      assert [v][1..] == [];
    } else {
      assert (list + [v])[1..] == list[1..] + [v];
      WriteItemsSnoc(list[1..], v);
    }
  }

  /** `Inv::write` as it appends to the stream. */
  method WriteInvLoop(inv: Inv) returns (stream: Bytes)
    ensures stream == WriteInv(inv)
  {
    hide WriteParam, LeBytes, InvTag;
    stream := LeBytes(|inv.list|, 4);
    for i := 0 to |inv.list|
      invariant stream == LeBytes(|inv.list|, 4) + WriteItems(inv.list[..i])
    {
      var item := inv.list[i];
      WriteItemsSnoc(inv.list[..i], item);
      assert inv.list[..i + 1] == inv.list[..i] + [item];
      stream := stream + [InvTag(item.invType)];
      stream := stream + WriteParam(item.param);
    }
    assert inv.list[..|inv.list|] == inv.list;
    stream := stream + LeBytes(inv.maxEntries, 2);
  }

  /** `Inv::read` as it loops over the stream. */
  method ReadInvLoop(b: Bytes) returns (r: Read<Inv>)
    ensures r == ReadInv(b)
  {
    hide ReadItem;
    var head := ReadBytes(4, b);
    if head.Bad? { return Bad; }
    var len := LeNat(head.value);
    var list: seq<InvVect> := [];
    var stream := head.rest;
    ghost var whole := ReadItems(len, head.rest);
    assert whole.Done? ==> list + whole.value == whole.value;
    for i := 0 to len
      invariant |list| == i
      invariant var todo := ReadItems(len - i, stream);
        if todo.Done? then whole == Done(list + todo.value, todo.rest) else whole.Bad?
    {
      var item := ReadItem(stream);
      if item.Bad? { return Bad; }
      assert forall others :: list + ([item.value] + others) == (list + [item.value]) + others;
      list := list + [item.value];
      stream := item.rest;
    }
    assert list + [] == list;
    var max := ReadBytes(2, stream);
    if max.Bad? { return Bad; }
    LeCanonical(max.value);
    Widths();
    return Done(Inv(list, LeNat(max.value)), max.rest);
  }

  // --------------------------------------------------------------- layouts

  /** A validation result: 56 bytes of votes, the vote, and last 0, 1, 2 or 255 for
      a Valid, Invalid, NoCandidate or no quorum. */
  lemma ValidationResultLayout(v: ValidationResult)
    ensures var b := WriteValidationResult(v);
            && |b| == 57 + |WriteVote(v.vote)|
            && b[..56] == WriteStepVotes(v.sv) && b[56..|b| - 1] == WriteVote(v.vote)
            && b[|b| - 1] == (if v.quorum.ValidQuorum? then 0 else if v.quorum.InvalidQuorum? then 1
                              else if v.quorum.NoCandidateQuorum? then 2 else 255)
  {
    hide WriteVote, LeBytes;
  }

  /** A Ratification message: 41 bytes of header, the vote, 8 of the timestamp, the
      validation result, 96 of the signer and 48 of its signature. */
  lemma RatificationLayout(m: RatificationMsg)
    ensures var b := WriteRatification(m);
            var at := 41 + |WriteVote(m.vote)|;
            var end := at + 8 + |WriteValidationResult(m.validationResult)|;
            && |b| == end + 144
            && b[..41] == WriteHeader(m.header) && b[41..at] == WriteVote(m.vote)
            && b[at..at + 8] == WriteU64(m.timestamp)
            && b[at + 8..end] == WriteValidationResult(m.validationResult)
            && b[end..end + 96] == m.signInfo.signer && b[end + 96..] == m.signInfo.signature
  {
    hide WriteVote, LeBytes, WriteHeader, WriteValidationResult;
    var b := WriteRatification(m);
    var h, v, t := WriteHeader(m.header), WriteVote(m.vote), WriteU64(m.timestamp);
    var r, s := WriteValidationResult(m.validationResult), WriteSignInfo(m.signInfo);
    assert b == h + v + t + r + s && s == m.signInfo.signer + m.signInfo.signature;
    var end := |h + v + t + r|;
    assert b[end..] == s && b[end..end + 96] == s[..96] && b[end + 96..] == s[96..];
  }

  /** An inventory entry begins with the number of its type. */
  lemma ItemLayout(v: InvVect)
    ensures WriteItem(v)[1..] == WriteParam(v.param)
    ensures WriteItem(v)[0] == (if v.invType.MempoolTx? then 0 else if v.invType.BlockFromHash? then 1
                                else if v.invType.BlockFromHeight? then 2 else if v.invType.CandidateFromHash? then 3
                                else if v.invType.CandidateFromIteration? then 4 else 5)
  {
  }

  // ---------------------------------------------------------- signed bytes

  function SignSeed(step: StepName): Bytes
    requires !step.Proposal?
  {
    if step.Validation? then [1] else [2]
  }

  /** `Validation::signable` */
  function ValidationSignable(m: ValidationMsg): Bytes {
    var signable := WriteHeader(m.header);
    var signable := signable + [1];
    signable + WriteVote(m.vote)
  }

  /** `Ratification::signable`; neither the timestamp nor the validation result is
      part of it. */
  function RatificationSignable(m: RatificationMsg): Bytes {
    var signable := WriteHeader(m.header);
    var signable := signable + [2];
    signable + WriteVote(m.vote)
  }

  /** The bytes `verify_step_signature` puts together for a step, header and vote. */
  function Signable(header: ConsensusHeader, step: StepName, vote: Vote): Bytes
    requires !step.Proposal?
  {
    WriteHeader(header) + SignSeed(step) + WriteVote(vote)
  }

  /** Equal signed bytes mean the same header, the same step and the same vote. */
  lemma SignableInjective(h1: ConsensusHeader, s1: StepName, v1: Vote,
                          h2: ConsensusHeader, s2: StepName, v2: Vote)
    requires !s1.Proposal? && !s2.Proposal?
    requires Signable(h1, s1, v1) == Signable(h2, s2, v2)
    ensures h1 == h2 && s1 == s2 && v1 == v2
  {
    hide ReadVote, WriteVote, ReadHeader, WriteHeader;
    var t1, t2 := SignSeed(s1) + WriteVote(v1), SignSeed(s2) + WriteVote(v2);
    assert Signable(h1, s1, v1) == WriteHeader(h1) + t1;
    assert Signable(h2, s2, v2) == WriteHeader(h2) + t2;
    HeaderRoundTrip(h1, t1);
    HeaderRoundTrip(h2, t2);
    assert t1 == t2 && t1[0] == t2[0];
    assert t1[1..] == WriteVote(v1) + [] && t2[1..] == WriteVote(v2) + [];
    VoteRoundTrip(v1, []);
    VoteRoundTrip(v2, []);
  }

  /** The tag byte of a vote. */
  function VoteTag(v: Vote): Byte {
    match v
    case NoCandidate => 0
    case Valid(_) => 1
    case Invalid(_) => 2
    case NoQuorum => 3
  }

  /** The signed bytes, place by place: 32 of the previous block's hash, 8 of the
      round with the least significant first, the iteration, 1 for a Validation and
      2 for a Ratification, the tag of the vote, and its hash if it has one. */
  lemma SignedLayout(header: ConsensusHeader, step: StepName, vote: Vote, i: nat)
    requires !step.Proposal? && i < 8
    ensures var b := Signable(header, step, vote);
            && |b| == (if vote.Valid? || vote.Invalid? then 75 else 43)
            && b[..32] == header.prevBlockHash && b[32 + i] == header.round / Pow256(i) % 256
            && b[40] == header.iteration && b[41] == (if step.Validation? then 1 else 2)
            && b[42] == VoteTag(vote) && (vote.Valid? || vote.Invalid? ==> b[43..] == vote.hash)
  {
    hide Pow256, WriteHeader, WriteVote, VoteTag;
    HeaderPlaces(header, i);
    VotePlaces(vote);
    var b, h, v := Signable(header, step, vote), WriteHeader(header), WriteVote(vote);
    assert b[..32] == h[..32] && b[32 + i] == h[32 + i] && b[40] == h[40];
    assert b[42..] == v && b[43..] == v[1..];
  }

  lemma HeaderPlaces(h: ConsensusHeader, i: nat)
    requires i < 8
    ensures WriteHeader(h)[..32] == h.prevBlockHash && WriteHeader(h)[40] == h.iteration
    ensures WriteHeader(h)[32 + i] == h.round / Pow256(i) % 256
  {
    hide LeBytes, Pow256;
    LittleEndian(h.round, 8, i);
    assert WriteHeader(h)[32 + i] == WriteU64(h.round)[i];
  }

  lemma VotePlaces(v: Vote)
    ensures |WriteVote(v)| == (if v.Valid? || v.Invalid? then 33 else 1) && WriteVote(v)[0] == VoteTag(v)
    ensures v.Valid? || v.Invalid? ==> WriteVote(v)[1..] == v.hash
  {
  }

  /** An attestation, place by place: the result's tag and vote, then for Validation
      and Ratification in this order a bitset of 8 bytes and a signature of 48. */
  lemma AttestationLayout(a: Attestation, i: nat)
    requires i < 8
    ensures var b := WriteAttestation(a);
            var at := if a.result.vote.Valid? || a.result.vote.Invalid? then 34 else 2;
            && |b| == at + 112
            && b[0] == (if a.result.Fail? then 0 else 1) && b[1] == VoteTag(a.result.vote)
            && (a.result.vote.Valid? || a.result.vote.Invalid? ==> b[2..34] == a.result.vote.hash)
            && b[at + i] == a.validation.bitset / Pow256(i) % 256
            && b[at + 8..at + 56] == a.validation.aggregateSignature
            && b[at + 56 + i] == a.ratification.bitset / Pow256(i) % 256
            && b[at + 64..] == a.ratification.aggregateSignature
  {
    hide LeBytes, Pow256;
    LittleEndian(a.validation.bitset, 8, i);
    LittleEndian(a.ratification.bitset, 8, i);
    var b, result := WriteAttestation(a), WriteRatificationResult(a.result);
    var v, r := WriteStepVotes(a.validation), WriteStepVotes(a.ratification);
    var at := |result|;
    assert b == result + (v + r);
    assert b[at..at + 56] == v && b[at + 56..] == r;
    assert v[8..] == a.validation.aggregateSignature && r[8..] == a.ratification.aggregateSignature;
    assert b[at + i] == v[i] && b[at + 56 + i] == r[i];
    assert b[at + 8..at + 56] == v[8..] && b[at + 64..] == r[8..];
  }

  /** The verifier rebuilds exactly what each message signed, and signed bytes
      bind the kind of message, its header and its vote, and nothing else. */
  lemma SignedBytesDetermine(v1: ValidationMsg, v2: ValidationMsg, r1: RatificationMsg, r2: RatificationMsg)
    ensures ValidationSignable(v1) == Signable(v1.header, Validation, v1.vote)
    ensures RatificationSignable(r1) == Signable(r1.header, Ratification, r1.vote)
    ensures ValidationSignable(v1) == ValidationSignable(v2) <==> v1.header == v2.header && v1.vote == v2.vote
    ensures RatificationSignable(r1) == RatificationSignable(r2) <==> r1.header == r2.header && r1.vote == r2.vote
    ensures ValidationSignable(v1) != RatificationSignable(r1)
  {
    hide ReadVote, WriteVote, ReadHeader, WriteHeader;
    if ValidationSignable(v1) == ValidationSignable(v2) {
      SignableInjective(v1.header, Validation, v1.vote, v2.header, Validation, v2.vote);
    }
    if RatificationSignable(r1) == RatificationSignable(r2) {
      SignableInjective(r1.header, Ratification, r1.vote, r2.header, Ratification, r2.vote);
    }
    if ValidationSignable(v1) == RatificationSignable(r1) {
      SignableInjective(v1.header, Validation, v1.vote, r1.header, Ratification, r1.vote);
    }
  }
}
