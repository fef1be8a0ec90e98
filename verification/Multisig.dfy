/**
 Pending multisig requests and their finalization (rust/src/api/wallet/multisig.rs,
 rust/src/api/wallet/multisig/protocol.rs).  Cryptography is a record of functions: keys may fail to decompress,
 signatures may fail to parse, and verification is a predicate.
 */
module Multisig {
  import opened Common
  import opened Prepared
  import opened PreparedGuards

  // ----- Verifying the shares -----

  datatype Crypto<!Key, !Point, !Sig> = Crypto(
    decompress: Key -> Option<Point>,
    parse: string -> Option<Sig>,
    text: Sig -> string,
    verify: (Sig, Hash, Point) -> bool)

  datatype Configuration<Key> = Configuration(threshold: nat, participants: seq<Key>)

  /** A share as received: the participant's index and the signature in hexadecimal. */
  datatype Share = Share(id: nat, signature: string)

  datatype SignatureId<Sig> = SignatureId(id: nat, signature: Sig)

  datatype MultisigError =
    | CountMismatch
    | ParticipantUnknown
    | ParticipantKeyInvalid
    | SignatureEncodingInvalid
    | SignatureNotCanonical
    | SignatureInvalid
    | ParticipantRepeated

  function VerifyMultisigSignature<Key, Point, Sig>(
    c: Crypto<Key, Point, Sig>, hash: Hash, config: Configuration<Key>, share: Share)
    : (r: Result<SignatureId<Sig>, MultisigError>)
    ensures r.Success? <==> Vouched(c, hash, config, share)
    ensures r.Success? ==> Vouches(c, hash, config, share, r.value)
    ensures r.Failure? ==> Explains(c, hash, config, share, r.error)
  {
    if share.id >= |config.participants| then Failure(ParticipantUnknown)
    else
      var point := c.decompress(config.participants[share.id]);
      if point == None then Failure(ParticipantKeyInvalid)
      else
        var parsed := c.parse(share.signature);
        if parsed == None then Failure(SignatureEncodingInvalid)
        else if c.text(parsed.value) != share.signature then Failure(SignatureNotCanonical)
        else if !c.verify(parsed.value, hash, point.value) then Failure(SignatureInvalid)
        else Success(SignatureId(share.id, parsed.value))
  }

  /** A configured participant signed `hash`. */
  predicate Signed<Key, Point, Sig>(c: Crypto<Key, Point, Sig>, hash: Hash, config: Configuration<Key>, s: SignatureId<Sig>) {
    && s.id < |config.participants|
    && c.decompress(config.participants[s.id]).Some?
    && c.verify(s.signature, hash, c.decompress(config.participants[s.id]).value)
  }

  /** The share is `s` in canonical notation, and `s` is a configured participant's signature on `hash`. */
  predicate Vouches<Key, Point, Sig(==)>(
    c: Crypto<Key, Point, Sig>, hash: Hash, config: Configuration<Key>, share: Share, s: SignatureId<Sig>)
  {
    && s.id == share.id && Signed(c, hash, config, s)
    && c.parse(share.signature) == Some(s.signature) && c.text(s.signature) == share.signature
  }

  predicate Vouched<Key, Point, Sig>(c: Crypto<Key, Point, Sig>, hash: Hash, config: Configuration<Key>, share: Share) {
    && c.parse(share.signature).Some? && c.text(c.parse(share.signature).value) == share.signature
    && Signed(c, hash, config, SignatureId(share.id, c.parse(share.signature).value))
  }

  /** What an error says of the share. */
  predicate Explains<Key, Point, Sig>(
    c: Crypto<Key, Point, Sig>, hash: Hash, config: Configuration<Key>, share: Share, e: MultisigError)
  {
    match e
    case ParticipantUnknown => share.id >= |config.participants|
    case ParticipantKeyInvalid => share.id < |config.participants| && c.decompress(config.participants[share.id]).None?
    case SignatureEncodingInvalid => c.parse(share.signature).None?
    case SignatureNotCanonical =>
      c.parse(share.signature).Some? && c.text(c.parse(share.signature).value) != share.signature
    case SignatureInvalid =>
      c.parse(share.signature).Some? && !Signed(c, hash, config, SignatureId(share.id, c.parse(share.signature).value))
    case _ => false
  }

  predicate Repeats(shares: seq<Share>, i: nat)
    requires i < |shares|
  {
    exists k :: 0 <= k < i && shares[k].id == shares[i].id
  }

  /** Share `i` is acceptable after the shares before it. */
  predicate ShareOk<Key, Point, Sig>(
    c: Crypto<Key, Point, Sig>, hash: Hash, config: Configuration<Key>, shares: seq<Share>, i: nat)
    requires i < |shares|
  {
    Vouched(c, hash, config, shares[i]) && !Repeats(shares, i)
  }

  /** The shares finalize the request: threshold-many, each valid, from distinct participants. */
  predicate Sufficient<Key, Point, Sig>(c: Crypto<Key, Point, Sig>, hash: Hash, config: Configuration<Key>, shares: seq<Share>) {
    && |shares| == config.threshold
    && forall i :: 0 <= i < |shares| ==> ShareOk(c, hash, config, shares, i)
  }

  /** What the finished multisig contains, share by share. */
  ghost predicate Carries<Key, Point, Sig>(
    c: Crypto<Key, Point, Sig>, hash: Hash, config: Configuration<Key>, shares: seq<Share>, m: seq<SignatureId<Sig>>) {
    && |m| == |shares|
    && forall i :: 0 <= i < |m| ==> Vouches(c, hash, config, shares[i], m[i])
  }

  /** `MultiSig::add_signature` refuses a participant already present. */
  method AddSignature<Sig>(m: seq<SignatureId<Sig>>, s: SignatureId<Sig>) returns (r: seq<SignatureId<Sig>>, added: bool)
    ensures added <==> forall k :: 0 <= k < |m| ==> m[k].id != s.id
    ensures r == if added then m + [s] else m
  {
    var k := 0;
    while k < |m|
      invariant 0 <= k <= |m|
      invariant forall l :: 0 <= l < k ==> m[l].id != s.id
    {
      if m[k].id == s.id {
        return m, false;
      }
      k := k + 1;
    }
    return m + [s], true;
  }

  /** Succeeds exactly on sufficient shares; otherwise the error is that of the first share that is not acceptable. */
  method BuildVerifiedMultisig<Key, Point, Sig>(
    c: Crypto<Key, Point, Sig>, hash: Hash, config: Configuration<Key>, shares: seq<Share>)
    returns (r: Result<seq<SignatureId<Sig>>, MultisigError>)
    ensures r.Success? <==> Sufficient(c, hash, config, shares)
    ensures r.Success? ==> Carries(c, hash, config, shares, r.value)
    ensures r == Failure(CountMismatch) <==> |shares| != config.threshold
    ensures r.Failure? && r.error != CountMismatch ==>
              exists i :: 0 <= i < |shares| && !ShareOk(c, hash, config, shares, i) &&
                (forall k :: 0 <= k < i ==> ShareOk(c, hash, config, shares, k)) &&
                (if Vouched(c, hash, config, shares[i]) then r.error == ParticipantRepeated
                 else Explains(c, hash, config, shares[i], r.error))
  {
    if |shares| != config.threshold {
      return Failure(CountMismatch);
    }
    var multisig: seq<SignatureId<Sig>> := [];
    var i := 0;
    while i < |shares|
      invariant 0 <= i <= |shares|
      invariant |multisig| == i
      invariant forall k :: 0 <= k < i ==> ShareOk(c, hash, config, shares, k)
      invariant forall k :: 0 <= k < i ==> Vouches(c, hash, config, shares[k], multisig[k])
    {
      var verified := VerifyMultisigSignature(c, hash, config, shares[i]);
      if verified.Failure? {
        assert !ShareOk(c, hash, config, shares, i);
        return Failure(verified.error);
      }
      assert forall k :: 0 <= k < i ==> multisig[k].id == shares[k].id;
      var more, added := AddSignature(multisig, verified.value);
      if !added {
        assert Repeats(shares, i);
        assert !ShareOk(c, hash, config, shares, i);
        return Failure(ParticipantRepeated);
      }
      multisig := more;
      i := i + 1;
    }
    return Success(multisig);
  }

  /** Exactly threshold-many distinct configured participants, each with a signature on the hash. */
  predicate Attests<Key, Point, Sig>(
    c: Crypto<Key, Point, Sig>, hash: Hash, config: Configuration<Key>, m: seq<SignatureId<Sig>>) {
    && |m| == config.threshold
    && (forall i :: 0 <= i < |m| ==> Signed(c, hash, config, m[i]))
    && (forall i, k :: 0 <= i < k < |m| ==> m[i].id != m[k].id)
  }

  lemma {:induction false} SufficientMeans<Key, Point, Sig>(
    c: Crypto<Key, Point, Sig>, hash: Hash, config: Configuration<Key>, shares: seq<Share>, m: seq<SignatureId<Sig>>)
    requires Sufficient(c, hash, config, shares) && Carries(c, hash, config, shares, m)
    ensures Attests(c, hash, config, m)
  {
    forall i, k | 0 <= i < k < |m| ensures m[i].id != m[k].id {
      assert ShareOk(c, hash, config, shares, k);
    }
  }

  // ----- The pending request -----

  datatype PendingError = AlreadyPending | RequestGenerationOverflow | RequestNotFound | RequestMismatch

  datatype Pending<P> = Pending(request: Option<(nat, Hash, P)>, next: nat)

  function InsertRefusal<P>(s: Pending<P>): Option<PendingError> {
    if s.request.Some? then Some(AlreadyPending)
    else if s.next >= MAX_GENERATION then Some(RequestGenerationOverflow)
    else None
  }

  function Inserted<P>(s: Pending<P>, hash: Hash, payload: P): Pending<P> {
    if InsertRefusal(s).Some? then s else Pending(Some((s.next + 1, hash, payload)), s.next + 1)
  }

  function RequestRefusal<P>(s: Pending<P>, id: nat, hash: Hash): Option<PendingError> {
    match s.request
    case None => Some(RequestNotFound)
    case Some((actual, signing, _)) => if actual != id || signing != hash then Some(RequestMismatch) else None
  }

  function Consumed<P>(s: Pending<P>, id: nat, hash: Hash): Pending<P> {
    if RequestRefusal(s, id, hash).Some? then s else Pending(None, s.next)
  }

  datatype PendingOp<P> = OpInsert(hash: Hash, payload: P) | OpCancelRequest(id: nat, hash: Hash)

  function PendingAfter<P>(s: Pending<P>, op: PendingOp<P>): Pending<P> {
    match op
    case OpInsert(hash, payload) => Inserted(s, hash, payload)
    case OpCancelRequest(id, hash) => Consumed(s, id, hash)
  }

  function PendingAfterAll<P>(s: Pending<P>, ops: seq<PendingOp<P>>): Pending<P> {
    if ops == [] then s else PendingAfter(PendingAfterAll(s, ops[..|ops| - 1]), ops[|ops| - 1])
  }

  /** A pending request carries a number that has been given out. */
  predicate Numbered<P>(s: Pending<P>) {
    s.request.Some? ==> s.request.value.0 <= s.next
  }

  /** The number has been given out and is not that of the pending request. */
  predicate RequestSpent<P>(s: Pending<P>, id: nat) {
    id <= s.next && (s.request.Some? ==> s.request.value.0 != id)
  }

  lemma {:induction false} NumberedStays<P>(s: Pending<P>, ops: seq<PendingOp<P>>)
    requires Numbered(s)
    ensures Numbered(PendingAfterAll(s, ops))
  {
    if ops != [] {
      NumberedStays(s, ops[..|ops| - 1]);
    }
  }

  lemma {:induction false} SpentStays<P>(s: Pending<P>, ops: seq<PendingOp<P>>, id: nat)
    requires RequestSpent(s, id)
    ensures RequestSpent(PendingAfterAll(s, ops), id)
  {
    if ops != [] {
      SpentStays(s, ops[..|ops| - 1], id);
    }
  }

  /** In every life of the store, a request that is cancelled or consumed is refused ever after, whatever hash is given. */
  lemma {:induction false} ConsumedNeverReturns<P>(
    earlier: seq<PendingOp<P>>, id: nat, hash: Hash, later: seq<PendingOp<P>>, other: Hash)
    requires RequestRefusal(PendingAfterAll(Pending(None, 0), earlier), id, hash) == None
    ensures var s := Consumed(PendingAfterAll(Pending(None, 0), earlier), id, hash);
            && RequestSpent(PendingAfterAll(s, later), id)
            && RequestRefusal(PendingAfterAll(s, later), id, other).Some?
  {
    NumberedStays(Pending(None, 0), earlier);
    SpentStays(Consumed(PendingAfterAll(Pending(None, 0), earlier), id, hash), later, id);
  }

  /** An inserted request is accepted under its number and hash, with its payload, until exactly that request is cancelled. */
  lemma {:induction false} InsertedIsPending<P>(s: Pending<P>, hash: Hash, payload: P, ops: seq<PendingOp<P>>)
    requires InsertRefusal(s) == None
    ensures var id := s.next + 1;
            var after := PendingAfterAll(Inserted(s, hash, payload), ops);
            && (RequestRefusal(after, id, hash) == None <==> OpCancelRequest(id, hash) !in ops)
            && (OpCancelRequest(id, hash) !in ops ==> after == Pending(Some((id, hash, payload)), id))
            && (OpCancelRequest(id, hash) in ops ==> RequestSpent(after, id))
  {
    if ops != [] {
      InsertedIsPending(s, hash, payload, ops[..|ops| - 1]);
      assert ops == ops[..|ops| - 1] + [ops[|ops| - 1]];
    }
  }

  /** A request is refused only while another is pending or when the numbers are exhausted. */
  lemma {:induction false} InsertRefusedWhen<P>(s: Pending<P>)
    ensures InsertRefusal(s) == None <==> s.request == None && s.next + 1 < PowerOfTwo(64)
    ensures InsertRefusal(s) == Some(AlreadyPending) <==> s.request.Some?
  {
    MachinePowers();
  }

  class PendingMultisigStore<P(!new)> {
    var request: Option<(nat, Hash, P)>
    var nextGeneration: nat

    ghost function View(): Pending<P>
      reads this
    {
      Pending(request, nextGeneration)
    }

    constructor ()
      ensures View() == Pending(None, 0) && Numbered(View())
    {
      request, nextGeneration := None, 0;
    }

    method Insert(hash: Hash, payload: P) returns (r: Result<nat, PendingError>)
      modifies this
      ensures View() == Inserted(old(View()), hash, payload)
      ensures old(Numbered(View())) ==> Numbered(View())
      ensures r == match InsertRefusal(old(View()))
                   case Some(e) => Failure(e)
                   case None => Success(old(nextGeneration) + 1)
    {
      if request.Some? {
        return Failure(AlreadyPending);
      }
      if nextGeneration >= MAX_GENERATION {
        return Failure(RequestGenerationOverflow);
      }
      nextGeneration := nextGeneration + 1;
      request := Some((nextGeneration, hash, payload));
      return Success(nextGeneration);
    }

    method EnsureExpectedRequest(id: nat, hash: Hash) returns (r: Option<PendingError>)
      ensures r == RequestRefusal(View(), id, hash)
    {
      if request == None {
        return Some(RequestNotFound);
      }
      if request.value.0 != id || request.value.1 != hash {
        return Some(RequestMismatch);
      }
      return None;
    }

    method Cancel(id: nat, hash: Hash) returns (r: Option<PendingError>)
      modifies this
      ensures View() == Consumed(old(View()), id, hash)
      ensures r == RequestRefusal(old(View()), id, hash)
      ensures old(Numbered(View())) ==> Numbered(View()) && (r == None ==> RequestSpent(View(), id))
    {
      r := EnsureExpectedRequest(id, hash);
      if r == None {
        request := None;
      }
    }

    method Interleave(ops: seq<PendingOp<P>>)
      modifies this
      ensures View() == PendingAfterAll(old(View()), ops)
    {
      var i := 0;
      while i < |ops|
        invariant 0 <= i <= |ops|
        invariant View() == PendingAfterAll(old(View()), ops[..i])
      {
        match ops[i] {
          case OpInsert(hash, payload) => var _ := Insert(hash, payload);
          case OpCancelRequest(id, hash) => var _ := Cancel(id, hash);
        }
        assert ops[..i + 1][..i] == ops[..i];
        i := i + 1;
      }
      assert ops[..i] == ops;
    }
  }

  // ----- Finalization across both stores -----

  datatype Request<U, Key> = Request(unsigned: U, configuration: Configuration<Key>)

  datatype FinalizeError = SlotError(slot: Error) | RequestError(request: PendingError) | SharesError(shares: MultisigError)

  /** The request that finalization finds, if it is the one named and the shares finalize it. */
  predicate CanFinalize<U, Key, Point, Sig>(
    c: Crypto<Key, Point, Sig>, s: Pending<Request<U, Key>>, id: nat, hash: Hash, shares: seq<Share>)
  {
    RequestRefusal(s, id, hash) == None && Sufficient(c, hash, s.request.value.2.configuration, shares)
  }

  /** Whatever happened since it was inserted, a request can be finalized unless it was cancelled, by its own configuration. */
  lemma {:induction false} InsertedCanFinalize<U, Key, Point, Sig>(
    c: Crypto<Key, Point, Sig>, s: Pending<Request<U, Key>>, hash: Hash, payload: Request<U, Key>,
    ops: seq<PendingOp<Request<U, Key>>>, shares: seq<Share>)
    requires InsertRefusal(s) == None
    ensures CanFinalize(c, PendingAfterAll(Inserted(s, hash, payload), ops), s.next + 1, hash, shares) <==>
            OpCancelRequest(s.next + 1, hash) !in ops && Sufficient(c, hash, payload.configuration, shares)
  {
    InsertedIsPending(s, hash, payload, ops);
  }

  /** take_validated: the request is consumed exactly when the shares are sufficient. */
  method TakeValidated<U(!new), Key(!new), Point, Sig>(
    c: Crypto<Key, Point, Sig>, pending: PendingMultisigStore<Request<U, Key>>, id: nat, hash: Hash, shares: seq<Share>)
    returns (r: Result<(Request<U, Key>, seq<SignatureId<Sig>>), FinalizeError>)
    modifies pending
    ensures r.Success? <==> CanFinalize(c, old(pending.View()), id, hash, shares)
    ensures r.Success? ==>
              old(pending.request) == Some((id, hash, r.value.0)) && pending.View() == Consumed(old(pending.View()), id, hash)
    ensures r.Success? ==> Carries(c, hash, r.value.0.configuration, shares, r.value.1)
    ensures r.Success? && old(Numbered(pending.View())) ==> RequestSpent(pending.View(), id)
    ensures r.Failure? ==> pending.View() == old(pending.View())
    ensures r.Failure? && r.error.RequestError? ==> RequestRefusal(old(pending.View()), id, hash) == Some(r.error.request)
    ensures r.Failure? ==> !r.error.SlotError?
  {
    var refusal := pending.EnsureExpectedRequest(id, hash);
    if refusal.Some? {
      return Failure(RequestError(refusal.value));
    }
    var payload := pending.request.value.2;
    var built := BuildVerifiedMultisig(c, hash, payload.configuration, shares);
    if built.Failure? {
      return Failure(SharesError(built.error));
    }
    pending.request := None;
    return Success((payload, built.value));
  }

  /**
   Finalization with other tasks using both stores: `before` and `during` act on the pending store before and after the
   request is taken, `others` and `meanwhile` on the prepared store.  Either it fails, leaving the slot and the
   request alone, or the request is consumed and a new generation is published with the finalized transaction.
   */
  method FinalizeMultisigTransaction<U(!new), Key(!new), Point, Sig, T(!new)>(
    c: Crypto<Key, Point, Sig>, finalize: (U, seq<SignatureId<Sig>>) -> (Hash, T),
    prepared: PreparedTransactionStore<T>, pending: PendingMultisigStore<Request<U, Key>>,
    id: nat, hash: Hash, shares: seq<Share>,
    others: seq<Op<T>>, before: seq<PendingOp<Request<U, Key>>>, during: seq<PendingOp<Request<U, Key>>>, meanwhile: seq<Op<T>>)
    returns (r: Result<nat, FinalizeError>, ghost carried: seq<SignatureId<Sig>>)
    modifies prepared, pending
    ensures ReplaceRefusal(old(prepared.View())).Some? ==>
              r.Failure? && prepared.View() == old(prepared.View()) && pending.View() == old(pending.View())
    ensures ReplaceRefusal(old(prepared.View())) == None ==>
              (r.Success? <==> CanFinalize(c, PendingAfterAll(old(pending.View()), before), id, hash, shares))
    ensures r.Failure? ==> prepared.state == old(prepared.state) && prepared.activePreparation == old(prepared.activePreparation)
    ensures r.Failure? && ReplaceRefusal(old(prepared.View())) == None ==>
              pending.View() == PendingAfterAll(old(pending.View()), before)
    ensures r.Success? ==>
              && ReplaceRefusal(old(prepared.View())) == None
              && r.value == old(prepared.nextGeneration) + 1
              && var found := PendingAfterAll(old(pending.View()), before);
                 && CanFinalize(c, found, id, hash, shares)
                 && Attests(c, hash, found.request.value.2.configuration, carried)
                 && var (txHash, tx) := finalize(found.request.value.2.unsigned, carried);
                    && prepared.View() == Store(Ready(r.value, txHash, tx), r.value, None)
                    && pending.View() == PendingAfterAll(Pending(None, found.next), during)
    ensures r.Success? && old(Numbered(pending.View())) ==> RequestSpent(pending.View(), id)
  {
    carried := [];
    var begun := PreparationGuard.Begin(prepared);
    if begun.Failure? {
      return Failure(SlotError(begun.error)), [];
    }
    var guard := begun.value;
    GuardFreezesAll(prepared.View(), others);
    prepared.Interleave(others);
    pending.Interleave(before);
    var taken := TakeValidated(c, pending, id, hash, shares);
    if taken.Failure? {
      guard.Drop();
      return Failure(taken.error), [];
    }
    var (payload, multisig) := taken.value;
    carried := multisig;
    if old(Numbered(pending.View())) {
      NumberedStays(old(pending.View()), before);
      SpentStays(pending.View(), during, id);
    }
    SufficientMeans(c, hash, payload.configuration, shares, multisig);
    pending.Interleave(during);
    GuardFreezesAll(prepared.View(), meanwhile);
    prepared.Interleave(meanwhile);
    var (txHash, tx) := finalize(payload.unsigned, multisig);
    var committed := guard.Commit(txHash, tx);
    return Success(committed.value), multisig;
  }
}
