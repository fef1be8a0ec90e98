/**
 Filtered history pages (rust/src/api/wallet/history.rs, rust/src/api/models/wallet_dtos.rs).  The base filter of the
 storage is a predicate; asked for no skip, the storage returns the first `limit` entries that satisfy it.
 */
module History {
  import opened Common

  const USIZE_MAX: nat := 0xFFFF_FFFF_FFFF_FFFF

  type PublicKey = nat

  /** `data`: the serialized data element of the transfer, if it carries one. */
  datatype Transfer = Transfer(destination: PublicKey, data: Option<seq<nat>>, details: nat)

  datatype EntryData = Incoming(transfers: seq<Transfer>) | Outgoing(transfers: seq<Transfer>) | Other

  datatype Transaction = Transaction(info: nat, entry: EntryData)

  /** An integrated address: its key and its serialized data. */
  datatype Exact = Exact(publicKey: PublicKey, data: seq<nat>)

  datatype AddressFilter = AnyAddress | InvalidAddress | Standard | Integrated(exact: Exact)

  datatype AssetFilter = AnyAsset | InvalidAsset | OneAsset

  datatype PageFilter = PageFilter(page: nat, limit: Option<nat>, address: AddressFilter, asset: AssetFilter)

  datatype HistoryError = PageInvalid | LimitInvalid | AddressInvalid | AssetInvalid | OffsetTooLarge | RangeTooLarge

  // ----- The fully filtered history -----

  predicate Matches(exact: Exact, key: PublicKey, data: Option<seq<nat>>) {
    key == exact.publicKey && data == Some(exact.data)
  }

  /** A transfer of this transaction goes to exactly the integrated address; incoming ones went to the wallet. */
  predicate Hits(exact: Exact, wallet: PublicKey, entry: EntryData, t: Transfer): (hit: bool)
    ensures hit ==> t.data == Some(exact.data)
    ensures entry.Outgoing? ==> (hit <==> t.data == Some(exact.data) && t.destination == exact.publicKey)
    ensures entry.Incoming? ==> (hit <==> t.data == Some(exact.data) && wallet == exact.publicKey)
    ensures entry == Other ==> !hit
  {
    match entry
    case Incoming(_) => Matches(exact, wallet, t.data)
    case Outgoing(_) => Matches(exact, t.destination, t.data)
    case Other => false
  }

  function HitsOf(exact: Exact, wallet: PublicKey, entry: EntryData, ts: seq<Transfer>): seq<Transfer> {
    if ts == [] then []
    else
      var rest := HitsOf(exact, wallet, entry, ts[..|ts| - 1]);
      if Hits(exact, wallet, entry, ts[|ts| - 1]) then rest + [ts[|ts| - 1]] else rest
  }

  function TransfersOf(t: Transaction): seq<Transfer> {
    if t.entry.Other? then [] else t.entry.transfers
  }

  /** The transaction reduced to the transfers that hit. */
  function Reduced(exact: Exact, wallet: PublicKey, t: Transaction): Transaction {
    if t.entry.Other? then t else t.(entry := t.entry.(transfers := HitsOf(exact, wallet, t.entry, t.entry.transfers)))
  }

  /** Those with a hit, each reduced, in order. */
  function ExactHistory(exact: Exact, wallet: PublicKey, txs: seq<Transaction>): seq<Transaction> {
    if txs == [] then []
    else
      var rest := ExactHistory(exact, wallet, txs[..|txs| - 1]);
      var last := Reduced(exact, wallet, txs[|txs| - 1]);
      if TransfersOf(last) != [] && !last.entry.Other? then rest + [last] else rest
  }

  function Accepted(accepts: Transaction -> bool, txs: seq<Transaction>): seq<Transaction> {
    if txs == [] then []
    else
      var rest := Accepted(accepts, txs[..|txs| - 1]);
      if accepts(txs[|txs| - 1]) then rest + [txs[|txs| - 1]] else rest
  }

  /** All the history that the filter describes, without pages. */
  function FullHistory(
      f: PageFilter, accepts: Transaction -> bool, wallet: PublicKey, stored: seq<Transaction>): seq<Transaction> {
    var base := Accepted(accepts, stored);
    if f.address.Integrated? then ExactHistory(f.address.exact, wallet, base) else base
  }

  // ----- Pages -----

  function Min(a: nat, b: nat): nat {
    if a < b then a else b
  }

  function Slice<A>(s: seq<A>, from: nat, count: nat): seq<A> {
    s[Min(from, |s|)..Min(from + count, |s|)]
  }

  /** Page `page`, counted from 1: positions (page - 1) * limit up to page * limit. */
  function Page<A>(s: seq<A>, page: nat, limit: nat): seq<A>
    requires page > 0
  {
    Slice(s, (page - 1) * limit, limit)
  }

  /** Which filters are refused. */
  function Refusal(f: PageFilter): Option<HistoryError> {
    if f.page == 0 then Some(PageInvalid)
    else if f.limit == Some(0) then Some(LimitInvalid)
    else if f.address.InvalidAddress? then Some(AddressInvalid)
    else if f.asset.InvalidAsset? then Some(AssetInvalid)
    else if f.limit.Some? && (f.page - 1) * f.limit.value > USIZE_MAX then Some(OffsetTooLarge)
    else if f.limit.Some? && (f.page - 1) * f.limit.value + f.limit.value > USIZE_MAX then Some(RangeTooLarge)
    else None
  }

  /** The storage, asked with no skip. */
  function Storage(accepts: Transaction -> bool, stored: seq<Transaction>, limit: Option<nat>): seq<Transaction> {
    var base := Accepted(accepts, stored);
    if limit.Some? then Slice(base, 0, limit.value) else base
  }

  /** A page of a long enough prefix is that page of the whole. */
  lemma {:induction false} SliceOfPrefix<A>(s: seq<A>, from: nat, count: nat)
    ensures Slice(Slice(s, 0, from + count), from, count) == Slice(s, from, count)
  {
    var to := Min(from + count, |s|);
    var prefix := s[..to];
    assert Slice(s, 0, from + count) == prefix;
    var left, right := Slice(prefix, from, count), Slice(s, from, count);
    assert |left| == |right|;
    forall k | 0 <= k < |left| ensures left[k] == right[k] {
      assert left[k] == prefix[Min(from, to) + k];
      assert right[k] == s[Min(from, |s|) + k];
    }
    assert left == right;
  }

  datatype Pagination = Pagination(offset: nat, limit: Option<nat>)

  /**
   HistoryPageFilter::prepare and FilteredPagination::prepare with their checked arithmetic: the limit for the
   storage, and the page.
   */
  method Prepare(f: PageFilter) returns (r: Result<(Option<nat>, Pagination), HistoryError>)
    ensures r.Failure? <==> Refusal(f).Some?
    ensures r.Failure? ==> Refusal(f) == Some(r.error)
    ensures r.Success? ==> r.value.1.limit == f.limit
    ensures r.Success? && f.limit.Some? ==>
              r.value.1.offset == (f.page - 1) * f.limit.value && r.value.0 == Some(r.value.1.offset + f.limit.value)
    ensures r.Success? && f.limit == None ==> r.value == (None, Pagination(0, None))
  {
    if f.page == 0 {
      return Failure(PageInvalid);
    }
    if f.limit == Some(0) {
      return Failure(LimitInvalid);
    }
    if f.address.InvalidAddress? {
      return Failure(AddressInvalid);
    }
    if f.asset.InvalidAsset? {
      return Failure(AssetInvalid);
    }
    if f.limit == None {
      return Success((None, Pagination(0, None)));
    }
    var skip := (f.page - 1) * f.limit.value;
    if skip > USIZE_MAX {
      return Failure(OffsetTooLarge);
    }
    if skip + f.limit.value > USIZE_MAX {
      return Failure(RangeTooLarge);
    }
    return Success((Some(skip + f.limit.value), Pagination(skip, f.limit)));
  }

  /** FilteredPagination::apply. */
  function ApplyPagination<A>(p: Pagination, values: seq<A>): seq<A> {
    if p.limit.Some? then Slice(values, p.offset, p.limit.value) else values
  }

  /** Vec::retain over one transaction's transfers. */
  method RetainHits(exact: Exact, wallet: PublicKey, entry: EntryData, transfers: seq<Transfer>) returns (kept: seq<Transfer>)
    ensures kept == HitsOf(exact, wallet, entry, transfers)
    ensures KeepsHits(exact, wallet, entry, transfers, kept)
  {
    kept := [];
    var i := 0;
    while i < |transfers|
      invariant 0 <= i <= |transfers|
      invariant kept == HitsOf(exact, wallet, entry, transfers[..i])
    {
      assert transfers[..i + 1][..i] == transfers[..i];
      if Hits(exact, wallet, entry, transfers[i]) {
        kept := kept + [transfers[i]];
      }
      i := i + 1;
    }
    assert transfers[..i] == transfers;
    HitsOfKeepsHits(exact, wallet, entry, transfers);
  }

  /** retain_mut: transfers are dropped in place, and transactions left without any are dropped. */
  method ApplyExactIntegratedDestination(txs: seq<Transaction>, exact: Exact, wallet: PublicKey) returns (kept: seq<Transaction>)
    ensures kept == ExactHistory(exact, wallet, txs)
    ensures ExactlyKept(exact, wallet, txs, kept)
  {
    var acceptsIncoming := wallet == exact.publicKey;
    kept := [];
    var i := 0;
    while i < |txs|
      invariant 0 <= i <= |txs|
      invariant kept == ExactHistory(exact, wallet, txs[..i])
    {
      assert txs[..i + 1][..i] == txs[..i];
      var t := txs[i];
      if (t.entry.Incoming? && acceptsIncoming) || t.entry.Outgoing? {
        var transfers := RetainHits(exact, wallet, t.entry, t.entry.transfers);
        if transfers != [] {
          kept := kept + [t.(entry := t.entry.(transfers := transfers))];
        }
      } else if t.entry.Incoming? {
        NoHitElsewhere(exact, wallet, t.entry, t.entry.transfers);
      }
      i := i + 1;
    }
    assert txs[..i] == txs;
    ExactKeepsTheHits(exact, wallet, txs);
  }

  /** Incoming transfers cannot hit another wallet's integrated address. */
  lemma {:induction false} NoHitElsewhere(exact: Exact, wallet: PublicKey, entry: EntryData, ts: seq<Transfer>)
    requires entry.Incoming? && wallet != exact.publicKey
    ensures HitsOf(exact, wallet, entry, ts) == []
  {
    if ts != [] {
      NoHitElsewhere(exact, wallet, entry, ts[..|ts| - 1]);
    }
  }

  /** Applied to enough of the history, the prepared pagination gives the page. */
  lemma {:induction false} PageOf(f: PageFilter, p: Pagination, full: seq<Transaction>, txs: seq<Transaction>)
    requires Refusal(f) == None && p.limit == f.limit
    requires f.limit.Some? ==> p.offset == (f.page - 1) * f.limit.value
    requires txs == full || (f.limit.Some? && txs == Slice(full, 0, p.offset + f.limit.value))
    requires f.limit == None ==> txs == full
    ensures f.limit.Some? ==> ApplyPagination(p, txs) == Page(full, f.page, f.limit.value)
    ensures f.limit == None ==> ApplyPagination(p, txs) == full
  {
    if f.limit.Some? {
      SliceOfPrefix(full, p.offset, f.limit.value);
    }
  }

  /** The whole pipeline: the page of the fully filtered history, or the filter's error. */
  method ReadHistory(f: PageFilter, accepts: Transaction -> bool, wallet: PublicKey, stored: seq<Transaction>)
    returns (r: Result<seq<Transaction>, HistoryError>)
    ensures r.Failure? <==> Refusal(f).Some?
    ensures r.Failure? ==> Refusal(f) == Some(r.error)
    ensures r.Success? && f.limit.Some? ==> r.value == Page(FullHistory(f, accepts, wallet, stored), f.page, f.limit.value)
    ensures r.Success? && f.limit == None ==> r.value == FullHistory(f, accepts, wallet, stored)
    ensures Describes(f, accepts, wallet, stored, FullHistory(f, accepts, wallet, stored))
  {
    FullHistoryMeans(f, accepts, wallet, stored);
    var prepared := Prepare(f);
    if prepared.Failure? {
      return Failure(prepared.error);
    }
    var (limit, pagination) := prepared.value;
    if f.address.Integrated? {
      limit := None;
    }
    var txs := Storage(accepts, stored, limit);
    if f.address.Integrated? {
      txs := ApplyExactIntegratedDestination(txs, f.address.exact, wallet);
    }
    r := Success(ApplyPagination(pagination, txs));
    PageOf(f, pagination, FullHistory(f, accepts, wallet, stored), txs);
  }

  // ----- Pages partition the history -----

  /** The first `pages` pages, one after the other. */
  function Pages<A>(s: seq<A>, pages: nat, limit: nat): seq<A> {
    if pages == 0 then [] else Pages(s, pages - 1, limit) + Page(s, pages, limit)
  }

  /** No gap and no repeat: the first pages are exactly the first entries. */
  lemma {:induction false} PagesAreAPrefix<A>(s: seq<A>, pages: nat, limit: nat)
    ensures Pages(s, pages, limit) == s[..Min(pages * limit, |s|)]
  {
    if pages > 0 {
      PagesAreAPrefix(s, pages - 1, limit);
      assert (pages - 1) * limit + limit == pages * limit;
      var from, to := Min((pages - 1) * limit, |s|), Min(pages * limit, |s|);
      assert s[..from] + s[from..to] == s[..to];
    }
  }

  /** Every entry is on exactly one page, at the place its position gives. */
  lemma {:induction false} OnExactlyOnePage<A>(s: seq<A>, limit: nat, i: nat, page: nat, k: nat)
    requires limit > 0 && i < |s| && page > 0 && k < limit
    ensures (page - 1) * limit + k == i <==> page == i / limit + 1 && k == i % limit
    ensures (page - 1) * limit + k == i ==> k < |Page(s, page, limit)| && Page(s, page, limit)[k] == s[i]
  {
    DivMod(page - 1, k, limit);
    assert i == (i / limit) * limit + i % limit;
  }

  lemma {:induction false} DivMod(q: nat, k: nat, n: nat)
    requires k < n
    ensures (q * n + k) / n == q && (q * n + k) % n == k
  {
    var x := q * n + k;
    assert x == (x / n) * n + x % n;
    SmallMultiple(x / n - q, n);
  }

  lemma {:induction false} SmallMultiple(d: int, n: nat)
    ensures d >= 1 ==> d * n >= n
    ensures d <= -1 ==> d * n <= 0 - n
  {
  }

  /** Once the pages reach the end they hold everything, and later pages are empty. */
  lemma {:induction false} LastPages<A>(s: seq<A>, pages: nat, limit: nat)
    requires pages * limit >= |s|
    ensures Pages(s, pages, limit) == s
    ensures Page(s, pages + 1, limit) == []
  {
    PagesAreAPrefix(s, pages, limit);
    assert s[..|s|] == s;
  }

  // ----- What the filters keep -----

  predicate Increasing(ps: seq<nat>) {
    forall j, k :: 0 <= j < k < |ps| ==> ps[j] < ps[k]
  }

  /** `ps` lists the positions marked in `marks`, in order. */
  predicate Lists(ps: seq<nat>, marks: seq<bool>) {
    && Increasing(ps)
    && (forall k :: 0 <= k < |ps| ==> ps[k] < |marks|)
    && (forall p :: 0 <= p < |marks| ==> (p in ps <==> marks[p]))
  }

  /** `kept` is read off `s` at the positions `ps`. */
  predicate PickedAt<A(==)>(ps: seq<nat>, s: seq<A>, kept: seq<A>) {
    |ps| == |kept| && forall k :: 0 <= k < |ps| ==> ps[k] < |s| && kept[k] == s[ps[k]]
  }

  function Places(marks: seq<bool>): seq<nat> {
    if marks == [] then []
    else
      var n := |marks| - 1;
      if marks[n] then Places(marks[..n]) + [n] else Places(marks[..n])
  }

  lemma {:induction false} PlacesListed(marks: seq<bool>)
    ensures Lists(Places(marks), marks)
  {
    if marks != [] {
      var n := |marks| - 1;
      var rest := Places(marks[..n]);
      PlacesListed(marks[..n]);
      forall p | 0 <= p < |marks| ensures p in Places(marks) <==> marks[p] {
        assert p < n ==> marks[..n][p] == marks[p] && (p in Places(marks) <==> p in rest);
        assert n !in rest;
      }
    }
  }

  lemma {:induction false} PickedGrows<A>(ps: seq<nat>, s: seq<A>, kept: seq<A>, last: A)
    requires PickedAt(ps, s, kept)
    ensures PickedAt(ps, s + [last], kept) && PickedAt(ps + [|s|], s + [last], kept + [last])
  {
  }

  function HitMarks(exact: Exact, wallet: PublicKey, entry: EntryData, ts: seq<Transfer>): seq<bool> {
    seq(|ts|, p requires 0 <= p < |ts| => Hits(exact, wallet, entry, ts[p]))
  }

  /** Exactly the transfers that hit, each as often as it was there, in their order. */
  ghost predicate KeepsHits(exact: Exact, wallet: PublicKey, entry: EntryData, ts: seq<Transfer>, kept: seq<Transfer>) {
    && (forall x :: multiset(kept)[x] == if Hits(exact, wallet, entry, x) then multiset(ts)[x] else 0)
    && exists ps: seq<nat> :: PickedAt(ps, ts, kept) && Lists(ps, HitMarks(exact, wallet, entry, ts))
  }

  lemma {:induction false} HitsPicked(exact: Exact, wallet: PublicKey, entry: EntryData, ts: seq<Transfer>)
    ensures PickedAt(Places(HitMarks(exact, wallet, entry, ts)), ts, HitsOf(exact, wallet, entry, ts))
  {
    if ts != [] {
      var n := |ts| - 1;
      HitsPicked(exact, wallet, entry, ts[..n]);
      assert HitMarks(exact, wallet, entry, ts)[..n] == HitMarks(exact, wallet, entry, ts[..n]);
      assert ts[..n] + [ts[n]] == ts;
      PickedGrows(Places(HitMarks(exact, wallet, entry, ts[..n])), ts[..n], HitsOf(exact, wallet, entry, ts[..n]), ts[n]);
    }
  }

  lemma {:induction false} HitsCounted(exact: Exact, wallet: PublicKey, entry: EntryData, ts: seq<Transfer>, x: Transfer)
    ensures multiset(HitsOf(exact, wallet, entry, ts))[x] == if Hits(exact, wallet, entry, x) then multiset(ts)[x] else 0
  {
    if ts != [] {
      HitsCounted(exact, wallet, entry, ts[..|ts| - 1], x);
      assert ts == ts[..|ts| - 1] + [ts[|ts| - 1]];
    }
  }

  lemma {:induction false} HitsOfKeepsHits(exact: Exact, wallet: PublicKey, entry: EntryData, ts: seq<Transfer>)
    ensures KeepsHits(exact, wallet, entry, ts, HitsOf(exact, wallet, entry, ts))
  {
    forall x {
      HitsCounted(exact, wallet, entry, ts, x);
    }
    HitsPicked(exact, wallet, entry, ts);
    PlacesListed(HitMarks(exact, wallet, entry, ts));
  }

  // ----- The exact filter -----

  predicate HasHit(exact: Exact, wallet: PublicKey, t: Transaction) {
    exists x :: x in TransfersOf(t) && Hits(exact, wallet, t.entry, x)
  }

  /** The same transaction with only its hits. */
  ghost predicate Narrowed(exact: Exact, wallet: PublicKey, before: Transaction, after: Transaction) {
    && after.info == before.info
    && (after.entry.Incoming? <==> before.entry.Incoming?)
    && (after.entry.Outgoing? <==> before.entry.Outgoing?)
    && KeepsHits(exact, wallet, before.entry, TransfersOf(before), TransfersOf(after))
  }

  function TransactionMarks(exact: Exact, wallet: PublicKey, txs: seq<Transaction>): seq<bool> {
    seq(|txs|, p requires 0 <= p < |txs| => HasHit(exact, wallet, txs[p]))
  }

  /** Exactly the transactions with a hit, in their order, each with its own hits only. */
  ghost predicate ExactlyKept(exact: Exact, wallet: PublicKey, txs: seq<Transaction>, kept: seq<Transaction>) {
    exists ps: seq<nat> :: NarrowedAt(exact, wallet, txs, kept, ps) && Lists(ps, TransactionMarks(exact, wallet, txs))
  }

  ghost function Narrowing(exact: Exact, wallet: PublicKey): (Transaction, Transaction) -> bool {
    (before, after) => Narrowed(exact, wallet, before, after)
  }

  ghost predicate NarrowedAt(exact: Exact, wallet: PublicKey, txs: seq<Transaction>, kept: seq<Transaction>, ps: seq<nat>) {
    RelatedAt(Narrowing(exact, wallet), txs, kept, ps)
  }

  lemma {:induction false} ReducedNarrows(exact: Exact, wallet: PublicKey, t: Transaction)
    ensures HasHit(exact, wallet, t) <==> TransfersOf(Reduced(exact, wallet, t)) != []
    ensures Narrowed(exact, wallet, t, Reduced(exact, wallet, t))
  {
    var ts := TransfersOf(t);
    HitsOfKeepsHits(exact, wallet, t.entry, ts);
    var kept := HitsOf(exact, wallet, t.entry, ts);
    if kept != [] {
      assert multiset(kept)[kept[0]] > 0;
      assert kept[0] in ts;
    }
    if HasHit(exact, wallet, t) {
      var x :| x in ts && Hits(exact, wallet, t.entry, x);
      assert multiset(kept)[x] > 0;
    }
  }

  lemma {:induction false} ReducedAtPlaces(exact: Exact, wallet: PublicKey, txs: seq<Transaction>)
    ensures NarrowedAt(exact, wallet, txs, ExactHistory(exact, wallet, txs), Places(TransactionMarks(exact, wallet, txs)))
  {
    if txs != [] {
      var n := |txs| - 1;
      ReducedAtPlaces(exact, wallet, txs[..n]);
      ReducedNarrows(exact, wallet, txs[n]);
      assert TransactionMarks(exact, wallet, txs)[..n] == TransactionMarks(exact, wallet, txs[..n]);
      assert Narrowing(exact, wallet)(txs[n], Reduced(exact, wallet, txs[n]));
      RelatedGrows(Narrowing(exact, wallet), txs, ExactHistory(exact, wallet, txs[..n]),
                   Places(TransactionMarks(exact, wallet, txs[..n])), Reduced(exact, wallet, txs[n]));
    }
  }

  /** `kept[k]` is what `rel` makes of `s[ps[k]]`, for every `k`. */
  ghost predicate RelatedAt<A(!new)>(rel: (A, A) -> bool, s: seq<A>, kept: seq<A>, ps: seq<nat>) {
    |ps| == |kept| && forall k :: 0 <= k < |ps| ==> ps[k] < |s| && rel(s[ps[k]], kept[k])
  }

  lemma {:induction false} RelatedGrows<A(!new)>(rel: (A, A) -> bool, s: seq<A>, kept: seq<A>, ps: seq<nat>, last: A)
    requires s != [] && RelatedAt(rel, s[..|s| - 1], kept, ps)
    ensures RelatedAt(rel, s, kept, ps)
    ensures rel(s[|s| - 1], last) ==> RelatedAt(rel, s, kept + [last], ps + [|s| - 1])
  {
    var init := s[..|s| - 1];
    assert forall k :: 0 <= k < |ps| ==> ps[k] < |init| && init[ps[k]] == s[ps[k]];
  }

  /** The exact filter loses no matching transfer and keeps no other, whatever the transactions. */
  lemma {:induction false} ExactKeepsTheHits(exact: Exact, wallet: PublicKey, txs: seq<Transaction>)
    ensures ExactlyKept(exact, wallet, txs, ExactHistory(exact, wallet, txs))
  {
    ReducedAtPlaces(exact, wallet, txs);
    PlacesListed(TransactionMarks(exact, wallet, txs));
  }

  // ----- The filter of the storage -----

  function AcceptedMarks(accepts: Transaction -> bool, txs: seq<Transaction>): seq<bool> {
    seq(|txs|, p requires 0 <= p < |txs| => accepts(txs[p]))
  }

  /** Exactly the accepted transactions, each as often as it was stored, in their order. */
  ghost predicate KeepsAccepted(accepts: Transaction -> bool, txs: seq<Transaction>, kept: seq<Transaction>) {
    && (forall x :: multiset(kept)[x] == if accepts(x) then multiset(txs)[x] else 0)
    && exists ps: seq<nat> :: PickedAt(ps, txs, kept) && Lists(ps, AcceptedMarks(accepts, txs))
  }

  lemma {:induction false} AcceptedPicked(accepts: Transaction -> bool, txs: seq<Transaction>)
    ensures PickedAt(Places(AcceptedMarks(accepts, txs)), txs, Accepted(accepts, txs))
  {
    if txs != [] {
      var n := |txs| - 1;
      AcceptedPicked(accepts, txs[..n]);
      assert AcceptedMarks(accepts, txs)[..n] == AcceptedMarks(accepts, txs[..n]);
      assert txs[..n] + [txs[n]] == txs;
      PickedGrows(Places(AcceptedMarks(accepts, txs[..n])), txs[..n], Accepted(accepts, txs[..n]), txs[n]);
    }
  }

  lemma {:induction false} AcceptedCounted(accepts: Transaction -> bool, txs: seq<Transaction>, x: Transaction)
    ensures multiset(Accepted(accepts, txs))[x] == if accepts(x) then multiset(txs)[x] else 0
  {
    if txs != [] {
      AcceptedCounted(accepts, txs[..|txs| - 1], x);
      assert txs == txs[..|txs| - 1] + [txs[|txs| - 1]];
    }
  }

  lemma {:induction false} AcceptedKeepsAccepted(accepts: Transaction -> bool, txs: seq<Transaction>)
    ensures KeepsAccepted(accepts, txs, Accepted(accepts, txs))
  {
    forall x {
      AcceptedCounted(accepts, txs, x);
    }
    AcceptedPicked(accepts, txs);
    PlacesListed(AcceptedMarks(accepts, txs));
  }

  /** The accepted transactions and, for an integrated address, of these the ones with a hit. */
  ghost predicate Describes(
      f: PageFilter, accepts: Transaction -> bool, wallet: PublicKey, stored: seq<Transaction>, full: seq<Transaction>) {
    exists base :: KeepsAccepted(accepts, stored, base)
      && (if f.address.Integrated? then ExactlyKept(f.address.exact, wallet, base, full) else full == base)
  }

  lemma {:induction false} FullHistoryMeans(
      f: PageFilter, accepts: Transaction -> bool, wallet: PublicKey, stored: seq<Transaction>)
    ensures Describes(f, accepts, wallet, stored, FullHistory(f, accepts, wallet, stored))
  {
    var base := Accepted(accepts, stored);
    AcceptedKeepsAccepted(accepts, stored);
    if f.address.Integrated? {
      ExactKeepsTheHits(f.address.exact, wallet, base);
    }
  }

  /** Which filters are served, and what the refusals of too large numbers mean. */
  lemma {:induction false} ServedFilters(f: PageFilter)
    ensures Refusal(f) == None <==>
              && f.page >= 1 && f.limit != Some(0) && !f.address.InvalidAddress? && !f.asset.InvalidAsset?
              && (f.limit.Some? ==> f.page * f.limit.value < PowerOfTwo(64))
    ensures Refusal(f) == Some(PageInvalid) <==> f.page == 0
    ensures Refusal(f) == Some(LimitInvalid) ==> f.limit == Some(0)
    ensures Refusal(f) == Some(AddressInvalid) ==> f.address.InvalidAddress?
    ensures Refusal(f) == Some(AssetInvalid) ==> f.asset.InvalidAsset?
    ensures Refusal(f) == Some(OffsetTooLarge) ==> f.limit.Some? && (f.page - 1) * f.limit.value >= PowerOfTwo(64)
    ensures Refusal(f) == Some(RangeTooLarge) ==>
              f.limit.Some? && (f.page - 1) * f.limit.value < PowerOfTwo(64) <= f.page * f.limit.value
  {
    MachinePowers();
    if f.limit.Some? {
      assert (f.page - 1) * f.limit.value + f.limit.value == f.page * f.limit.value;
    }
  }
}
