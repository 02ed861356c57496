/**
 * The FBFT view change (consensus/view_change*.go): the collector that a new leader
 * fills with view-change messages, the NEWVIEW message it builds from them, and the
 * checks a validator makes on that message.  Aggregate signatures are ideal: an
 * aggregate is the collection of (key, message) pairs that were signed, and it
 * verifies for a mask and a message if exactly the masked keys signed that message.
 */
module ViewChange {
  import opened Basics

  type Key = nat
  type Hash = nat
  type View = nat

  /** A block payload |hash|signature|bitmap| of `size` bytes; sig is None if it does not deserialize. */
  datatype Payload = Payload(size: nat, hash: Hash, sig: Option<Sig>, bits: seq<bool>)

  const NoPayload := Payload(0, 0, None, [])
  const ValidPayloadLength: nat := 32 + 96

  datatype Msg = Nil | ViewId(view: View) | Prepared(payload: Payload) | BlockHash(hash: Hash)

  /** A signature: one key's on one message, or an aggregate. */
  datatype Sig = One(key: Key, msg: Msg) | Aggregate(all: multiset<(Key, Msg)>)

  datatype Block = Block(hash: Hash, number: nat, contents: nat)

  /** The bytes of a block in a message: none, not decodable, or a block. */
  datatype Encoded = NoBlock | Garbage | Encoded(block: Block)

  function SignHash(k: Key, m: Msg): Sig {
    One(k, m)
  }

  /** Who signed what. */
  function Content(s: Sig): multiset<(Key, Msg)> {
    match s
    case One(k, m) => multiset{(k, m)}
    case Aggregate(all) => all
  }

  function AllOf(keys: set<Key>, m: Msg): multiset<(Key, Msg)> {
    multiset(set k | k in keys :: (k, m))
  }

  predicate VerifyHash(s: Sig, keys: set<Key>, m: Msg) {
    Content(s) == AllOf(keys, m)
  }

  /** A key's signature on m verifies for that key and m, and nothing else of that key does. */
  lemma SingleSigner(s: Sig, k: Key, m: Msg)
    ensures VerifyHash(s, {k}, m) <==> Content(s) == multiset{(k, m)}
  {
    assert (set x | x in {k} :: (x, m)) == {(k, m)};
  }

  // Masks over a committee.

  ghost predicate Distinct(s: seq<Key>) {
    forall i, j :: 0 <= i < j < |s| ==> s[i] != s[j]
  }

  datatype Mask = Mask(publics: seq<Key>, bits: seq<bool>)

  function NewMask(publics: seq<Key>): Mask {
    Mask(publics, seq(|publics|, _ => false))
  }

  ghost predicate MaskOf(m: Mask, members: seq<Key>) {
    m.publics == members && |m.bits| == |members|
  }

  ghost function Signers(m: Mask): set<Key> {
    set i | 0 <= i < |m.publics| && i < |m.bits| && m.bits[i] :: m.publics[i]
  }

  function Count(bits: seq<bool>): nat {
    if bits == [] then 0 else Count(bits[..|bits| - 1]) + if bits[|bits| - 1] then 1 else 0
  }

  /** The number of set bits is the number of signers. */
  lemma {:induction false} CountSigners(m: Mask)
    requires Distinct(m.publics) && |m.bits| == |m.publics|
    ensures Count(m.bits) == |Signers(m)|
    decreases |m.bits|
  {
    if m.bits != [] {
      var n := |m.bits| - 1;
      var front := Mask(m.publics[..n], m.bits[..n]);
      CountSigners(front);
      var rest := Signers(front);
      assert Signers(m) == rest + if m.bits[n] then {m.publics[n]} else {};
      assert m.publics[n] !in rest;
    } else {
      assert Signers(m) == {};
    }
  }

  /** SetKey(k, true); None stands for a key that is not in the committee. */
  method SetKey(m: Mask, k: Key) returns (r: Option<Mask>)
    requires Distinct(m.publics) && |m.bits| == |m.publics|
    ensures k !in m.publics ==> r == None
    ensures k in m.publics ==> r.Some? && MaskOf(r.value, m.publics) && Signers(r.value) == Signers(m) + {k}
  {
    r := None;
    for i := 0 to |m.publics|
      invariant r.None? ==> k !in m.publics[..i]
      invariant r.Some? ==> MaskOf(r.value, m.publics) && k in m.publics && Signers(r.value) == Signers(m) + {k}
    {
      if m.publics[i] == k && r.None? {
        var bits := m.bits[i := true];
        r := Some(Mask(m.publics, bits));
        SetBit(m, i);
      }
    }
    assert m.publics[..|m.publics|] == m.publics;
  }

  lemma SetBit(m: Mask, i: nat)
    requires |m.bits| == |m.publics| && i < |m.bits|
    ensures Signers(Mask(m.publics, m.bits[i := true])) == Signers(m) + {m.publics[i]}
  {
    var r := Mask(m.publics, m.bits[i := true]);
    forall k | k in Signers(r) ensures k in Signers(m) + {m.publics[i]} {
      var j :| 0 <= j < |r.publics| && r.bits[j] && r.publics[j] == k;
    }
    forall k | k in Signers(m) + {m.publics[i]} ensures k in Signers(r) {
      if k == m.publics[i] {
        assert r.bits[i];
      } else {
        var j :| 0 <= j < |m.publics| && m.bits[j] && m.publics[j] == k;
        assert r.bits[j];
      }
    }
  }

  // The consensus log, as far as view changes use it.

  /** A verified PREPARED message; its payload is |signature|bitmap|. */
  datatype PreparedMsg = PreparedMsg(
    view: View, blockNum: nat, hash: Hash, size: nat, sig: Option<Sig>, bits: seq<bool>)

  datatype Log = Log(blocks: map<Hash, Block>, prepared: seq<PreparedMsg>)

  function PayloadOf(p: PreparedMsg): Payload {
    Payload(32 + p.size, p.hash, p.sig, p.bits)
  }

  /** The masked keys of a payload; a bitmap of the wrong length leaves the mask empty. */
  ghost function CertSigners(p: Payload, members: seq<Key>): set<Key> {
    if |p.bits| == |members| then Signers(Mask(members, p.bits)) else {}
  }

  /** The prepare certificate in the payload is readable and signed by exactly its masked keys. */
  ghost predicate Certified(p: Payload, members: seq<Key>) {
    p.size >= ValidPayloadLength && p.sig.Some? && VerifyHash(p.sig.value, CertSigners(p, members), BlockHash(p.hash))
  }

  /** Blocks are filed under their hash; PREPARED messages were checked before they were logged. */
  ghost predicate LogSound(log: Log, members: seq<Key>) {
    && (forall h :: h in log.blocks ==> log.blocks[h].hash == h)
    && (forall i :: 0 <= i < |log.prepared| ==> Certified(PayloadOf(log.prepared[i]), members))
  }

  /** A prepared message for the block number with the highest view, if there is one. */
  ghost predicate Latest(log: Log, blockNum: nat, r: Option<PreparedMsg>) {
    && (r.None? <==> forall i :: 0 <= i < |log.prepared| ==> log.prepared[i].blockNum != blockNum)
    && (r.Some? ==> r.value in log.prepared && r.value.blockNum == blockNum)
    && (r.Some? ==> forall i :: 0 <= i < |log.prepared| && log.prepared[i].blockNum == blockNum ==>
          log.prepared[i].view <= r.value.view)
  }

  /** FindMessageByMaxViewID over the PREPARED messages of a block number. */
  method FindPrepared(log: Log, blockNum: nat) returns (r: Option<PreparedMsg>)
    ensures Latest(log, blockNum, r)
  {
    r := None;
    for i := 0 to |log.prepared|
      invariant r.None? <==> forall j :: 0 <= j < i ==> log.prepared[j].blockNum != blockNum
      invariant r.Some? ==> r.value in log.prepared && r.value.blockNum == blockNum
      invariant r.Some? ==> forall j :: 0 <= j < i && log.prepared[j].blockNum == blockNum ==>
        log.prepared[j].view <= r.value.view
    {
      var m := log.prepared[i];
      if m.blockNum == blockNum && (r.None? || m.view >= r.value.view) {
        r := Some(m);
      }
    }
  }

  // Messages.

  datatype ViewChangeMsg = ViewChangeMsg(view: View, blockNum: nat, senders: seq<Key>, leader: Key,
                                         payload: Payload, block: Encoded, vcSig: Sig, viewSig: Sig)

  datatype Err =
    | IncorrectSender | DupM1 | DupM2 | DupM3 | VerifyM1 | VerifyM2 | M1Payload | NoQuorum
    | BadBlock | BadSignature

  datatype Signed = Signed(sig: Sig, bits: seq<bool>)

  datatype NewView = NewView(view: View, blockNum: nat, sender: Key, payload: Payload, block: Encoded,
                             m2: Option<Signed>, m3: Option<Signed>)

  // Signatures and bitmaps of one kind, per view.

  type Sigs = map<View, map<Key, Sig>>
  type Masks = map<View, Mask>

  function SigsAt(s: Sigs, v: View): map<Key, Sig> {
    if v in s then s[v] else map[]
  }

  ghost function SignersAt(m: Masks, v: View): set<Key> {
    if v in m then Signers(m[v]) else {}
  }

  ghost predicate MasksOver(m: Masks, members: seq<Key>) {
    forall v :: v in m ==> MaskOf(m[v], members)
  }

  lemma NewMaskEmpty(members: seq<Key>)
    ensures Signers(NewMask(members)) == {}
  {
  }

  /** Stores a sender's signature and sets its bit; a failing SetKey is ignored. */
  method Record(sigs: Sigs, masks: Masks, v: View, k: Key, sig: Sig, members: seq<Key>)
    returns (sigs': Sigs, masks': Masks)
    requires Distinct(members) && MasksOver(masks, members)
    ensures MasksOver(masks', members)
    ensures SigsAt(sigs', v) == SigsAt(sigs, v)[k := sig]
    ensures SignersAt(masks', v) == SignersAt(masks, v) + if k in members then {k} else {}
    ensures Elsewhere(sigs, masks, sigs', masks', v)
  {
    sigs' := sigs[v := SigsAt(sigs, v)[k := sig]];
    NewMaskEmpty(members);
    var mask := if v in masks then masks[v] else NewMask(members);
    var set1 := SetKey(mask, k);
    masks' := masks[v := if set1.Some? then set1.value else mask];
  }

  /** Stores the node's own signature, unless the key is not in the committee. */
  method RecordOwn(sigs: Sigs, masks: Masks, v: View, k: Key, sig: Sig, members: seq<Key>)
    returns (sigs': Sigs, masks': Masks)
    requires Distinct(members) && MasksOver(masks, members)
    ensures MasksOver(masks', members)
    ensures SigsAt(sigs', v) == if k in members then SigsAt(sigs, v)[k := sig] else SigsAt(sigs, v)
    ensures SignersAt(masks', v) == SignersAt(masks, v) + if k in members then {k} else {}
    ensures Elsewhere(sigs, masks, sigs', masks', v)
  {
    NewMaskEmpty(members);
    var mask := if v in masks then masks[v] else NewMask(members);
    sigs', masks' := sigs, masks[v := mask];
    var set1 := SetKey(mask, k);
    if set1.Some? {
      masks' := masks[v := set1.value];
      sigs' := sigs[v := SigsAt(sigs, v)[k := sig]];
    }
  }

  /** Every own key that is in the committee signs message m for view v. */
  method RecordAll(sigs: Sigs, masks: Masks, v: View, keys: seq<Key>, m: Msg, members: seq<Key>)
    returns (sigs': Sigs, masks': Masks)
    requires Distinct(members) && MasksOver(masks, members)
    ensures MasksOver(masks', members) && Elsewhere(sigs, masks, sigs', masks', v)
    ensures SigsAt(sigs', v) == WithOwn(SigsAt(sigs, v), Own(keys, members), m)
    ensures SignersAt(masks', v) == SignersAt(masks, v) + Own(keys, members)
  {
    sigs', masks' := sigs, masks;
    for i := 0 to |keys|
      invariant MasksOver(masks', members) && Elsewhere(sigs, masks, sigs', masks', v)
      invariant SigsAt(sigs', v) == WithOwn(SigsAt(sigs, v), Own(keys[..i], members), m)
      invariant SignersAt(masks', v) == SignersAt(masks, v) + Own(keys[..i], members)
    {
      OwnNext(keys, members, i);
      WithOwnNext(SigsAt(sigs, v), Own(keys[..i], members), keys[i], m);
      sigs', masks' := RecordOwn(sigs', masks', v, keys[i], SignHash(keys[i], m), members);
    }
    assert keys[..|keys|] == keys;
  }

  /** Nothing changed for views other than v. */
  ghost predicate Elsewhere(sigs: Sigs, masks: Masks, sigs': Sigs, masks': Masks, v: View) {
    forall u :: u != v ==> SigsAt(sigs', u) == SigsAt(sigs, u) && SignersAt(masks', u) == SignersAt(masks, u)
  }

  ghost function WithOwn(s: map<Key, Sig>, own: set<Key>, m: Msg): map<Key, Sig> {
    map k | k in s.Keys + own :: if k in own then SignHash(k, m) else s[k]
  }

  lemma WithOwnNext(s: map<Key, Sig>, own: set<Key>, k: Key, m: Msg)
    ensures WithOwn(s, own + {k}, m) == WithOwn(s, own, m)[k := SignHash(k, m)]
    ensures own + {} == own
  {
  }

  ghost function Own(keys: seq<Key>, members: seq<Key>): set<Key> {
    set k | k in keys && k in members
  }

  lemma OwnNext(keys: seq<Key>, members: seq<Key>, i: nat)
    requires i < |keys|
    ensures Own(keys[..i + 1], members) == Own(keys[..i], members) + if keys[i] in members then {keys[i]} else {}
  {
    assert keys[..i + 1] == keys[..i] + [keys[i]];
  }

  // The collector.

  /** What the collector holds: signatures and bitmaps of M1 (prepared), M2 (nil) and M3 (view id) messages. */
  datatype Tally = Tally(m1: Sigs, m2: Sigs, m3: Sigs, m1Mask: Masks, m2Mask: Masks, m3Mask: Masks, payload: Payload)

  const EmptyTally := Tally(map[], map[], map[], map[], map[], map[], NoPayload)

  /**
   * Within one view: bits match signatures, M1 and M2 are disjoint and together
   * they are M3, and an M1 comes with a payload.
   */
  ghost predicate OneView(a1: map<Key, Sig>, a2: map<Key, Sig>, a3: map<Key, Sig>,
                          b1: set<Key>, b2: set<Key>, b3: set<Key>, v: View, carried: bool)
  {
    forall yes {:trigger Look(OfCollectors, yes)} :: Look(OfCollectors, yes) ==>
      && a1.Keys == b1 && a2.Keys == b2 && a3.Keys == b3
      && b1 !! b2 && b1 + b2 == b3
      && (b1 != {} ==> carried)
      && (forall k :: k in a2 ==> Signs(a2[k], k, Nil))
      && (forall k :: k in a3 ==> Signs(a3[k], k, ViewId(v)))
  }

  ghost predicate Signs(s: Sig, k: Key, m: Msg) {
    Content(s) == multiset{(k, m)}
  }

  ghost predicate ViewTrue(t: Tally, v: View) {
    OneView(SigsAt(t.m1, v), SigsAt(t.m2, v), SigsAt(t.m3, v),
            SignersAt(t.m1Mask, v), SignersAt(t.m2Mask, v), SignersAt(t.m3Mask, v), v, t.payload.size > 0)
  }

  ghost predicate Collected(t: Tally, members: seq<Key>) {
    && Distinct(members)
    && MasksOver(t.m1Mask, members) && MasksOver(t.m2Mask, members) && MasksOver(t.m3Mask, members)
    && (t.payload.size > 0 ==> Certified(t.payload, members))
    && forall v :: ViewTrue(t, v)
  }

  /** M1 and M2 are apart and make up M3, with bits to match. */
  lemma ViewParts(t: Tally, v: View)
    requires ViewTrue(t, v)
    ensures SigsAt(t.m1, v).Keys == SignersAt(t.m1Mask, v) && SigsAt(t.m2, v).Keys == SignersAt(t.m2Mask, v)
    ensures SigsAt(t.m3, v).Keys == SignersAt(t.m3Mask, v)
    ensures SigsAt(t.m1, v).Keys !! SigsAt(t.m2, v).Keys
    ensures SigsAt(t.m1, v).Keys + SigsAt(t.m2, v).Keys == SigsAt(t.m3, v).Keys
    ensures SigsAt(t.m1, v) != map[] ==> t.payload.size > 0
    ensures forall k :: k in SigsAt(t.m2, v) ==> Signs(SigsAt(t.m2, v)[k], k, Nil)
    ensures forall k :: k in SigsAt(t.m3, v) ==> Signs(SigsAt(t.m3, v)[k], k, ViewId(v))
  {
    assert Look(OfCollectors, true);
  }

  /** The same signatures and bits in view v. */
  ghost predicate SameView(t: Tally, t': Tally, v: View) {
    && SigsAt(t'.m1, v) == SigsAt(t.m1, v) && SignersAt(t'.m1Mask, v) == SignersAt(t.m1Mask, v)
    && SigsAt(t'.m2, v) == SigsAt(t.m2, v) && SignersAt(t'.m2Mask, v) == SignersAt(t.m2Mask, v)
    && SigsAt(t'.m3, v) == SigsAt(t.m3, v) && SignersAt(t'.m3Mask, v) == SignersAt(t.m3Mask, v)
  }

  lemma OtherViews(t: Tally, t': Tally, members: seq<Key>, v: View)
    requires Collected(t, members) && (t.payload.size > 0 ==> t'.payload.size > 0)
    requires forall u :: u != v ==> SameView(t, t', u)
    ensures forall u :: u != v ==> ViewTrue(t', u)
  {
    forall u | u != v ensures ViewTrue(t', u) {
      assert ViewTrue(t, u) && SameView(t, t', u);
    }
  }

  class Collector {
    var bhpSigs: Sigs
    var nilSigs: Sigs
    var viewIDSigs: Sigs
    var bhpBitmap: Masks
    var nilBitmap: Masks
    var viewIDBitmap: Masks
    var m1Payload: Payload

    ghost function View(): Tally
      reads this
    {
      Tally(bhpSigs, nilSigs, viewIDSigs, bhpBitmap, nilBitmap, viewIDBitmap, m1Payload)
    }

    constructor ()
      ensures View() == EmptyTally
    {
      bhpSigs, nilSigs, viewIDSigs := map[], map[], map[];
      bhpBitmap, nilBitmap, viewIDBitmap := map[], map[], map[];
      m1Payload := NoPayload;
    }

    method Reset()
      modifies this
      ensures View() == EmptyTally
    {
      bhpSigs, nilSigs, viewIDSigs := map[], map[], map[];
      bhpBitmap, nilBitmap, viewIDBitmap := map[], map[], map[];
      m1Payload := NoPayload;
    }

    /** Stores an M1 or M2 signature and the M3 signature of the same sender. */
    method RecordM1(msg: ViewChangeMsg, members: seq<Key>)
      requires Collected(View(), members) && |msg.senders| == 1
      modifies this`bhpSigs, this`bhpBitmap, this`viewIDSigs, this`viewIDBitmap
      ensures Recorded(old(View()), View(), members, msg, true)
    {
      var k := msg.senders[0];
      bhpSigs, bhpBitmap := Record(bhpSigs, bhpBitmap, msg.view, k, msg.vcSig, members);
      viewIDSigs, viewIDBitmap := Record(viewIDSigs, viewIDBitmap, msg.view, k, msg.viewSig, members);
    }

    method RecordM2(msg: ViewChangeMsg, members: seq<Key>)
      requires Collected(View(), members) && |msg.senders| == 1
      modifies this`nilSigs, this`nilBitmap, this`viewIDSigs, this`viewIDBitmap
      ensures Recorded(old(View()), View(), members, msg, false)
    {
      var k := msg.senders[0];
      nilSigs, nilBitmap := Record(nilSigs, nilBitmap, msg.view, k, msg.vcSig, members);
      viewIDSigs, viewIDBitmap := Record(viewIDSigs, viewIDBitmap, msg.view, k, msg.viewSig, members);
    }

    /**
     * Checks a view-change message and stores it.  A rejected message changes
     * nothing; an accepted one keeps the collector true exactly if its sender is in
     * the committee.
     */
    method ProcessViewChangeMsg(log: Log, members: seq<Key>, quorum: Mask -> bool, verifyBlock: Block -> bool,
                                msg: ViewChangeMsg)
      returns (err: Option<Err>, log': Log)
      requires Collected(View(), members) && LogSound(log, members)
      requires |msg.senders| == 1 ==> Signs(msg.viewSig, msg.senders[0], ViewId(msg.view))
      modifies this
      ensures err.None? <==> Accepts(old(View()), members, quorum, verifyBlock, msg)
      ensures err.Some? ==> View() == old(View()) && log' == log
      ensures err.None? ==> Taken(old(View()), View(), log, log', members, msg)
      ensures err.None? ==> (Collected(View(), members) <==> msg.senders[0] in members)
      ensures LogSound(log', members)
    {
      err, log' := None, log;
      if |msg.senders| != 1 {
        return Some(IncorrectSender), log;
      }
      var k := msg.senders[0];
      if k in SigsAt(viewIDSigs, msg.view) {
        return Some(DupM3), log;
      }
      if msg.payload.size >= ValidPayloadLength && msg.block != NoBlock {
        err := CheckM1(members, quorum, verifyBlock, msg);
        if err.None? {
          log' := AcceptM1(log, members, msg);
        }
      } else {
        err := AcceptM2(members, msg);
      }
    }

    /** Stores a checked M1 message; the first one also provides the payload and the log entries. */
    method AcceptM1(log: Log, members: seq<Key>, msg: ViewChangeMsg) returns (log': Log)
      requires Collected(View(), members) && LogSound(log, members) && |msg.senders| == 1
      requires msg.senders[0] !in SigsAt(viewIDSigs, msg.view) && Certified(msg.payload, members)
      requires Signs(msg.viewSig, msg.senders[0], ViewId(msg.view))
      modifies this
      ensures Collected(View(), members) <==> msg.senders[0] in members
      ensures Stored(old(View()), View(), log, log', members, msg, true) && LogSound(log', members)
    {
      log' := log;
      ghost var t := View();
      RecordM1(msg, members);
      RecordedTrue(t, View(), members, msg, true, msg.payload);
      if m1Payload.size == 0 {
        m1Payload := msg.payload;
        log' := Logged(log, msg);
      }
    }

    /** Checks and stores an M2 message. */
    method AcceptM2(members: seq<Key>, msg: ViewChangeMsg) returns (err: Option<Err>)
      requires Collected(View(), members) && |msg.senders| == 1
      requires msg.senders[0] !in SigsAt(viewIDSigs, msg.view)
      requires Signs(msg.viewSig, msg.senders[0], ViewId(msg.view))
      modifies this
      ensures err.None? <==> PassesM2(SigsAt(old(nilSigs), msg.view), msg)
      ensures err.Some? ==> View() == old(View())
      ensures err.None? ==> (Collected(View(), members) <==> msg.senders[0] in members)
      ensures err.None? ==> Recorded(old(View()), View(), members, msg, false)
    {
      var k := msg.senders[0];
      ghost var t := View();
      if k in SigsAt(nilSigs, msg.view) {
        return Some(DupM2);
      }
      SingleSigner(msg.vcSig, k, Nil);
      if !VerifyHash(msg.vcSig, {k}, Nil) {
        return Some(VerifyM2);
      }
      RecordM2(msg, members);
      RecordedTrue(t, View(), members, msg, false, m1Payload);
      return None;
    }

    /** The checks on an M1 message: its block, its sender's signature and its prepare certificate. */
    method CheckM1(members: seq<Key>, quorum: Mask -> bool, verifyBlock: Block -> bool, msg: ViewChangeMsg)
      returns (err: Option<Err>)
      requires |msg.senders| == 1 && msg.payload.size >= ValidPayloadLength && msg.block != NoBlock
      ensures err.None? <==> PassesM1(SigsAt(bhpSigs, msg.view), members, quorum, verifyBlock, msg)
    {
      if msg.block == Garbage || !verifyBlock(msg.block.block) {
        return Some(BadBlock);
      }
      if msg.senders[0] in SigsAt(bhpSigs, msg.view) {
        return Some(DupM1);
      }
      if !VerifyHash(msg.vcSig, {msg.senders[0]}, Prepared(msg.payload)) {
        return Some(VerifyM1);
      }
      if msg.payload.sig.None? {
        return Some(BadSignature);
      }
      var mask := CertMask(msg.payload, members);
      CertMaskSigners(msg.payload, members);
      if !quorum(mask) {
        return Some(NoQuorum);
      }
      var signers := SignersOf(mask);
      if !VerifyHash(msg.payload.sig.value, signers, BlockHash(msg.payload.hash)) {
        return Some(M1Payload);
      }
      return None;
    }

    method AddViewIDKeyIfNotExist(v: View, members: seq<Key>)
      requires Collected(View(), members)
      modifies this
      ensures Collected(View(), members) && m1Payload == old(m1Payload)
      ensures forall u :: SameView(old(View()), View(), u)
    {
      ghost var t := View();
      bhpSigs, bhpBitmap := Ensure(bhpSigs, bhpBitmap, v, members);
      nilSigs, nilBitmap := Ensure(nilSigs, nilBitmap, v, members);
      viewIDSigs, viewIDBitmap := Ensure(viewIDSigs, viewIDBitmap, v, members);
      AllSame(t, View(), members);
    }

    /** Whether one of the keys has a signature stored for the view. */
    method AnyOf(keys: seq<Key>, s: map<Key, Sig>) returns (found: bool)
      ensures found <==> exists k :: k in keys && k in s
    {
      found := false;
      for i := 0 to |keys|
        invariant found <==> exists k :: k in keys[..i] && k in s
      {
        assert keys[..i + 1] == keys[..i] + [keys[i]];
        if keys[i] in s {
          found := true;
        }
      }
      assert keys[..|keys|] == keys;
    }

    /**
     * Adds the node's own signatures once per view: M1 if it has a valid prepared
     * block, M2 otherwise, and M3.
     */
    method InitPayload(log: Log, v: View, blockNum: nat, keys: seq<Key>, members: seq<Key>, verifyBlock: Block -> bool)
      returns (ghost prepared: Option<PreparedMsg>)
      requires Collected(View(), members) && LogSound(log, members)
      modifies this
      ensures Collected(View(), members)
      ensures Initialised(old(View()), View(), members, v, keys, log, blockNum, verifyBlock, prepared)
    {
      ghost var t := View();
      assert ViewTrue(t, v);
      var had1 := AnyOf(keys, SigsAt(bhpSigs, v));
      var had2 := AnyOf(keys, SigsAt(nilSigs, v));
      var had3 := AnyOf(keys, SigsAt(viewIDSigs, v));
      HadEither(t, v, keys);
      prepared := None;
      if !(had1 || had2) {
        prepared := AddOwn(log, v, blockNum, keys, members, verifyBlock);
      }
      if !had3 {
        ghost var own := if Usable(log, prepared, verifyBlock) then Some(PayloadOf(prepared.value)) else None;
        AddOwnM3(v, keys, members, t, own);
      }
    }

    /** The M3 half of InitPayload; t is the collector before both halves. */
    method AddOwnM3(v: View, keys: seq<Key>, members: seq<Key>, ghost t: Tally, ghost own: Option<Payload>)
      requires Collected(t, members) && Own(keys, members) !! SigsAt(t.m3, v).Keys
      requires t.m3 == viewIDSigs && t.m3Mask == viewIDBitmap
      requires MasksOver(bhpBitmap, members) && MasksOver(nilBitmap, members)
      requires forall u :: u != v ==> SameView(t, View(), u)
      requires OwnSigned(t, View(), members, v, Own(keys, members), own)
      modifies this`viewIDSigs, this`viewIDBitmap
      ensures Collected(View(), members)
      ensures forall u :: u != v ==> SameView(t, View(), u)
      ensures OwnSigned(t, View(), members, v, Own(keys, members), own) && OwnView(t, View(), v, Own(keys, members))
    {
      ghost var mid := View();
      viewIDSigs, viewIDBitmap := RecordAll(viewIDSigs, viewIDBitmap, v, keys, ViewId(v), members);
      OwnM3Recorded(t, mid, View(), members, v, Own(keys, members), own);
    }

    /** The M1 or M2 half of InitPayload. */
    method AddOwn(log: Log, v: View, blockNum: nat, keys: seq<Key>, members: seq<Key>, verifyBlock: Block -> bool)
      returns (ghost found: Option<PreparedMsg>)
      requires Collected(View(), members) && LogSound(log, members)
      modifies this`bhpSigs, this`bhpBitmap, this`nilSigs, this`nilBitmap, this`m1Payload
      ensures MasksOver(bhpBitmap, members) && MasksOver(nilBitmap, members)
      ensures forall u :: u != v ==> SameView(old(View()), View(), u)
      ensures Latest(log, blockNum, found) && OwnSigned(old(View()), View(), members, v, Own(keys, members),
        if Usable(log, found, verifyBlock) then Some(PayloadOf(found.value)) else None)
    {
      var prepared := FindPrepared(log, blockNum);
      found := prepared;
      if prepared.Some? && prepared.value.hash in log.blocks && verifyBlock(log.blocks[prepared.value.hash]) {
        var p := PayloadOf(prepared.value);
        bhpSigs, bhpBitmap := RecordAll(bhpSigs, bhpBitmap, v, keys, Prepared(p), members);
        if m1Payload.size == 0 {
          m1Payload := p;
        }
      } else {
        nilSigs, nilBitmap := RecordAll(nilSigs, nilBitmap, v, keys, Nil, members);
      }
    }

    /** The prepared payload with the block it names, if the log has that block. */
    method GetPreparedBlock(log: Log) returns (p: Payload, block: Encoded)
      ensures m1Payload.size > 0 && m1Payload.hash in log.blocks ==>
        p == m1Payload && block == Encoded(log.blocks[p.hash])
      ensures !(m1Payload.size > 0 && m1Payload.hash in log.blocks) ==> p == NoPayload && block == NoBlock
    {
      if m1Payload.size > 0 && m1Payload.hash in log.blocks {
        return m1Payload, Encoded(log.blocks[m1Payload.hash]);
      }
      return NoPayload, NoBlock;
    }

    /** GetM2Bitmap: the aggregate of the nil signatures, with its bitmap. */
    method GetM2Bitmap(v: View, ghost members: seq<Key>) returns (r: Option<Signed>)
      requires Collected(View(), members)
      ensures r.None? <==> SigsAt(nilSigs, v) == map[]
      ensures r.Some? ==> Testifies(r.value, members, SigsAt(nilSigs, v).Keys, Nil)
    {
      ghost var t := View();
      assert ViewTrue(t, v);
      ViewParts(t, v);
      if SigsAt(nilSigs, v) == map[] {
        return None;
      }
      var sig := AggregateSig(SigsAt(nilSigs, v), Nil);
      return Some(Signed(sig, if v in nilBitmap then nilBitmap[v].bits else []));
    }

    /** GetM3Bitmap: the aggregate of the view-id signatures, with its bitmap. */
    method GetM3Bitmap(v: View, ghost members: seq<Key>) returns (r: Option<Signed>)
      requires Collected(View(), members)
      ensures r.None? <==> SigsAt(viewIDSigs, v) == map[]
      ensures r.Some? ==> Testifies(r.value, members, SigsAt(viewIDSigs, v).Keys, ViewId(v))
      ensures r.Some? && v in viewIDBitmap ==> r.value.bits == viewIDBitmap[v].bits
    {
      ghost var t := View();
      assert ViewTrue(t, v);
      ViewParts(t, v);
      if SigsAt(viewIDSigs, v) == map[] {
        return None;
      }
      var sig := AggregateSig(SigsAt(viewIDSigs, v), ViewId(v));
      return Some(Signed(sig, if v in viewIDBitmap then viewIDBitmap[v].bits else []));
    }

    /** constructNewViewMessage: None if there is nothing to build it from. */
    method ConstructNewView(v: View, blockNum: nat, key: Key, log: Log, ghost members: seq<Key>)
      returns (r: Option<NewView>)
      requires Collected(View(), members)
      ensures r.None? <==> SigsAt(viewIDSigs, v) == map[]
      ensures r.Some? ==> BuiltFrom(r.value, View(), v, blockNum, key, log, members)
      ensures r.Some? && v in viewIDBitmap ==> r.value.m3.value.bits == viewIDBitmap[v].bits
    {
      var p, block := GetPreparedBlock(log);
      var m2 := GetM2Bitmap(v, members);
      var m3 := GetM3Bitmap(v, members);
      if m3.None? {
        return None;
      }
      return Some(NewView(v, blockNum, key, p, block, m2, m3));
    }

    /**
     * onViewChange at the new leader: checks and collects a message and, once M3
     * has a quorum, builds the NEWVIEW message, unless there is a prepared payload
     * whose block selfCommit cannot find.  `started` and `mid` are the collector before and
     * after the leader's own signatures.
     */
    method OnViewChange(c: Leader, log: Log, quorum: Mask -> bool, verifyBlock: Block -> bool, msg: ViewChangeMsg)
      returns (built: Option<NewView>, log': Log, ghost started: Tally, ghost mid: Tally,
               ghost prepared: Option<PreparedMsg>)
      requires Collected(View(), c.members) && LogSound(log, c.members)
      requires forall k :: k in msg.senders ==> k in c.members
      modifies this
      ensures Collected(View(), c.members) && LogSound(log', c.members)
      ensures if QuorumAt(old(View()), msg.view, quorum) || !SanityCheck(c, msg)
              then View() == old(View()) && log' == log && built.None?
              else Collects(c, log, log', quorum, verifyBlock, msg, old(View()), started, mid, View(), prepared, built)
    {
      built, log' := None, log;
      started, mid, prepared := View(), View(), None;
      if msg.view in viewIDBitmap && quorum(viewIDBitmap[msg.view]) {
        return;
      }
      if !SanityCheck(c, msg) {
        return;
      }
      SingleSigner(msg.viewSig, msg.senders[0], ViewId(msg.view));
      AddViewIDKeyIfNotExist(msg.view, c.members);
      started := View();
      prepared := InitPayload(log, msg.view, msg.blockNum, c.keys, c.members, verifyBlock);
      mid := View();
      built, log' := CollectAndBuild(c, log, quorum, verifyBlock, msg);
    }

    /** The part of OnViewChange that follows the leader's own signatures. */
    method CollectAndBuild(c: Leader, log: Log, quorum: Mask -> bool, verifyBlock: Block -> bool, msg: ViewChangeMsg)
      returns (built: Option<NewView>, log': Log)
      requires Collected(View(), c.members) && LogSound(log, c.members)
      requires |msg.senders| == 1 && msg.senders[0] in c.members
      requires Signs(msg.viewSig, msg.senders[0], ViewId(msg.view))
      modifies this
      ensures Collected(View(), c.members) && LogSound(log', c.members)
      ensures Finishes(c, log, log', quorum, verifyBlock, msg, old(View()), View(), built)
    {
      built := None;
      var err;
      err, log' := ProcessViewChangeMsg(log, c.members, quorum, verifyBlock, msg);
      if err.None? {
        assert msg.senders[0] in SigsAt(viewIDSigs, msg.view);
        built := BuildIfReady(c, log', quorum, msg);
      }
    }

    /** The NEWVIEW message, if the leader is changing views, M3 has a quorum and the payload's block is at hand. */
    method BuildIfReady(c: Leader, log: Log, quorum: Mask -> bool, msg: ViewChangeMsg) returns (built: Option<NewView>)
      requires Collected(View(), c.members) && SigsAt(viewIDSigs, msg.view) != map[]
      ensures built.Some? <==> ReadyToBuild(c, log, quorum, msg, View())
      ensures built.Some? ==> Builds(c, log, quorum, msg, View(), built.value)
    {
      built := None;
      if !c.viewChanging || msg.view !in viewIDBitmap || !quorum(viewIDBitmap[msg.view]) {
        return;
      }
      if m1Payload.size > 0 && !SelfCommit(log, m1Payload) {
        return;
      }
      built := ConstructNewView(msg.view, c.blockNum, c.key, log, c.members);
    }
  }

  const MaxViewIDDiff: nat := 249

  /** The view's M3 bitmap has a quorum. */
  predicate QuorumAt(t: Tally, v: View, quorum: Mask -> bool) {
    v in t.m3Mask && quorum(t.m3Mask[v])
  }

  /**
   * What onViewChange does with a message that passes the sanity check: the view is opened, the own
   * signatures are added, the message is taken if it is acceptable, and a NEWVIEW is built exactly if
   * it was, in view-changing mode, with a quorum of M3, and with the payload's block at hand.
   */
  ghost predicate Collects(c: Leader, log: Log, log': Log, quorum: Mask -> bool, verifyBlock: Block -> bool,
                           msg: ViewChangeMsg, t: Tally, started: Tally, mid: Tally, t': Tally,
                           prepared: Option<PreparedMsg>, built: Option<NewView>)
  {
    && started.payload == t.payload && (forall u :: SameView(t, started, u))
    && Initialised(started, mid, c.members, msg.view, c.keys, log, msg.blockNum, verifyBlock, prepared)
    && Finishes(c, log, log', quorum, verifyBlock, msg, mid, t', built)
  }

  ghost predicate Finishes(c: Leader, log: Log, log': Log, quorum: Mask -> bool, verifyBlock: Block -> bool,
                           msg: ViewChangeMsg, t: Tally, t': Tally, built: Option<NewView>)
  {
    if Accepts(t, c.members, quorum, verifyBlock, msg) then
      && Taken(t, t', log, log', c.members, msg)
      && (built.Some? <==> ReadyToBuild(c, log', quorum, msg, t'))
      && (built.Some? ==> Builds(c, log', quorum, msg, t', built.value))
    else t' == t && log' == log && built.None?
  }

  predicate ReadyToBuild(c: Leader, log: Log, quorum: Mask -> bool, msg: ViewChangeMsg, t: Tally) {
    c.viewChanging && QuorumAt(t, msg.view, quorum) && (t.payload.size > 0 ==> SelfCommit(log, t.payload))
  }

  ghost predicate Builds(c: Leader, log: Log, quorum: Mask -> bool, msg: ViewChangeMsg, t: Tally, n: NewView) {
    && BuiltFrom(n, t, msg.view, c.blockNum, c.key, log, c.members)
    && quorum(ReadMask(n.m3.value.bits, c.members))
  }

  /** The new leader's own data: committee, keys, and where its consensus stands. */
  datatype Leader = Leader(
    members: seq<Key>, keys: seq<Key>, key: Key, blockNum: nat, curView: View, changingView: View, viewChanging: bool)

  /** onViewChangeSanityCheck, which also verifies the M3 signature. */
  predicate SanityCheck(c: Leader, msg: ViewChangeMsg) {
    && c.blockNum == msg.blockNum
    && !(c.viewChanging && c.curView > msg.view)
    && !(msg.view > c.changingView && msg.view - c.changingView > MaxViewIDDiff)
    && |msg.senders| == 1 && VerifyHash(msg.viewSig, {msg.senders[0]}, ViewId(msg.view))
  }

  /** Creates the maps of a view that has none. */
  method Ensure(sigs: Sigs, masks: Masks, v: View, members: seq<Key>) returns (sigs': Sigs, masks': Masks)
    requires MasksOver(masks, members)
    ensures MasksOver(masks', members) && v in sigs' && v in masks'
    ensures forall u :: SigsAt(sigs', u) == SigsAt(sigs, u) && SignersAt(masks', u) == SignersAt(masks, u)
  {
    NewMaskEmpty(members);
    sigs' := if v in sigs then sigs else sigs[v := map[]];
    masks' := if v in masks then masks else masks[v := NewMask(members)];
  }

  lemma AllSame(t: Tally, t': Tally, members: seq<Key>)
    requires Collected(t, members) && t'.payload == t.payload
    requires MasksOver(t'.m1Mask, members) && MasksOver(t'.m2Mask, members) && MasksOver(t'.m3Mask, members)
    requires forall u :: SigsAt(t'.m1, u) == SigsAt(t.m1, u) && SignersAt(t'.m1Mask, u) == SignersAt(t.m1Mask, u)
    requires forall u :: SigsAt(t'.m2, u) == SigsAt(t.m2, u) && SignersAt(t'.m2Mask, u) == SignersAt(t.m2Mask, u)
    requires forall u :: SigsAt(t'.m3, u) == SigsAt(t.m3, u) && SignersAt(t'.m3Mask, u) == SignersAt(t.m3Mask, u)
    ensures Collected(t', members) && forall u :: SameView(t, t', u)
  {
    forall u ensures ViewTrue(t', u) && SameView(t, t', u) {
      assert ViewTrue(t, u);
    }
  }

  /** The own keys were added to M2. */
  ghost predicate OwnNil(t: Tally, t': Tally, v: View, own: set<Key>) {
    && t'.payload == t.payload
    && SigsAt(t'.m1, v) == SigsAt(t.m1, v) && SignersAt(t'.m1Mask, v) == SignersAt(t.m1Mask, v)
    && SigsAt(t'.m2, v) == WithOwn(SigsAt(t.m2, v), own, Nil) && SignersAt(t'.m2Mask, v) == SignersAt(t.m2Mask, v) + own
  }

  /** The own keys were added to M1 with payload p, which is kept if there was none. */
  ghost predicate OwnPrepared(t: Tally, t': Tally, members: seq<Key>, v: View, own: set<Key>, p: Payload) {
    && t'.payload.size > 0 && Certified(t'.payload, members)
    && t'.payload == (if t.payload.size == 0 then p else t.payload)
    && SigsAt(t'.m2, v) == SigsAt(t.m2, v) && SignersAt(t'.m2Mask, v) == SignersAt(t.m2Mask, v)
    && SigsAt(t'.m1, v) == WithOwn(SigsAt(t.m1, v), own, Prepared(p))
    && SignersAt(t'.m1Mask, v) == SignersAt(t.m1Mask, v) + own
  }

  /** With a payload the own keys signed M1, without one M2. */
  ghost predicate OwnSigned(t: Tally, t': Tally, members: seq<Key>, v: View, own: set<Key>, p: Option<Payload>) {
    if p.Some? then OwnPrepared(t, t', members, v, own, p.value) else OwnNil(t, t', v, own)
  }

  /** The prepared message's block is known and verified. */
  predicate Usable(log: Log, prepared: Option<PreparedMsg>, verifyBlock: Block -> bool) {
    prepared.Some? && prepared.value.hash in log.blocks && verifyBlock(log.blocks[prepared.value.hash])
  }

  /**
   * The node's own signatures are in: nothing changed if one of its keys had signed the view; otherwise
   * they are M3 and, depending on whether the latest prepared message is usable, M1 or M2.
   */
  ghost predicate Initialised(t: Tally, t': Tally, members: seq<Key>, v: View, keys: seq<Key>, log: Log, blockNum: nat,
                              verifyBlock: Block -> bool, prepared: Option<PreparedMsg>)
  {
    if exists k :: k in keys && k in SigsAt(t.m3, v) then t' == t
    else
      && Latest(log, blockNum, prepared) && OwnView(t, t', v, Own(keys, members))
      && OwnSigned(t, t', members, v, Own(keys, members),
                   if Usable(log, prepared, verifyBlock) then Some(PayloadOf(prepared.value)) else None)
      && forall u :: u != v ==> SameView(t, t', u)
  }

  ghost predicate OwnView(t: Tally, t': Tally, v: View, own: set<Key>) {
    SigsAt(t'.m3, v) == WithOwn(SigsAt(t.m3, v), own, ViewId(v))
      && SignersAt(t'.m3Mask, v) == SignersAt(t.m3Mask, v) + own
  }

  function CertMask(p: Payload, members: seq<Key>): Mask {
    ReadMask(p.bits, members)
  }

  lemma CertMaskSigners(p: Payload, members: seq<Key>)
    ensures Signers(CertMask(p, members)) == CertSigners(p, members)
  {
    NewMaskEmpty(members);
  }

  /** The masked keys, collected by going through the bits. */
  method SignersOf(m: Mask) returns (keys: set<Key>)
    ensures keys == Signers(m)
  {
    keys := {};
    var n := if |m.bits| < |m.publics| then |m.bits| else |m.publics|;
    for i := 0 to n
      invariant keys == set j | 0 <= j < i && m.bits[j] :: m.publics[j]
    {
      if m.bits[i] {
        keys := keys + {m.publics[i]};
      }
    }
  }

  /** What an M1 message is checked for; its block is not compared with the payload's hash. */
  ghost predicate PassesM1(stored: map<Key, Sig>, members: seq<Key>, quorum: Mask -> bool, verifyBlock: Block -> bool,
                           msg: ViewChangeMsg)
    requires |msg.senders| == 1 && msg.payload.size >= ValidPayloadLength
  {
    && msg.block.Encoded? && verifyBlock(msg.block.block)
    && msg.senders[0] !in stored && VerifyHash(msg.vcSig, {msg.senders[0]}, Prepared(msg.payload))
    && Certified(msg.payload, members) && quorum(CertMask(msg.payload, members))
  }

  ghost predicate PassesM2(stored: map<Key, Sig>, msg: ViewChangeMsg)
    requires |msg.senders| == 1
  {
    msg.senders[0] !in stored && VerifyHash(msg.vcSig, {msg.senders[0]}, Nil)
  }

  /** The message carries a prepared payload and a block. */
  predicate IsM1(msg: ViewChangeMsg) {
    msg.payload.size >= ValidPayloadLength && msg.block != NoBlock
  }

  /** When a view-change message is accepted: one sender, who has not signed this view yet, and the M1 or M2 checks. */
  ghost predicate Accepts(t: Tally, members: seq<Key>, quorum: Mask -> bool, verifyBlock: Block -> bool,
                          msg: ViewChangeMsg)
  {
    && |msg.senders| == 1 && msg.senders[0] !in SigsAt(t.m3, msg.view)
    && (if IsM1(msg) then PassesM1(SigsAt(t.m1, msg.view), members, quorum, verifyBlock, msg)
        else PassesM2(SigsAt(t.m2, msg.view), msg))
  }

  /** The message is recorded; the first M1 payload of all is kept, and its certificate and block are logged. */
  ghost predicate Stored(t: Tally, t': Tally, log: Log, log': Log, members: seq<Key>, msg: ViewChangeMsg,
                         prepared: bool)
    requires |msg.senders| == 1
  {
    && Recorded(t, t'.(payload := t.payload), members, msg, prepared)
    && t'.payload == (if prepared && t.payload.size == 0 then msg.payload else t.payload)
    && log' == (if prepared && t.payload.size == 0 then Logged(log, msg) else log)
  }

  ghost predicate Taken(t: Tally, t': Tally, log: Log, log': Log, members: seq<Key>, msg: ViewChangeMsg) {
    |msg.senders| == 1 && Stored(t, t', log, log', members, msg, IsM1(msg))
  }

  /** The log after the first M1 payload: a prepared message for the new leader, and the block that came with it. */
  function Logged(log: Log, msg: ViewChangeMsg): Log {
    var p := msg.payload;
    var prepared := PreparedMsg(msg.view, msg.blockNum, p.hash, if p.size >= 32 then p.size - 32 else 0, p.sig, p.bits);
    Log(if msg.block.Encoded? then log.blocks[msg.block.block.hash := msg.block.block]
      else log.blocks, log.prepared + [prepared])
  }

  /** t' is t with the sender's M1 (or M2) signature and its M3 signature. */
  ghost predicate Recorded(t: Tally, t': Tally, members: seq<Key>, msg: ViewChangeMsg, prepared: bool)
    requires |msg.senders| == 1
  {
    var k, v := msg.senders[0], msg.view;
    var bit := if k in members then {k} else {};
    && MasksOver(t'.m1Mask, members) && MasksOver(t'.m2Mask, members) && MasksOver(t'.m3Mask, members)
    && t'.payload == t.payload
    && (forall u :: u != v ==> SameView(t, t', u))
    && SigsAt(t'.m3, v) == SigsAt(t.m3, v)[k := msg.viewSig] && SignersAt(t'.m3Mask, v) == SignersAt(t.m3Mask, v) + bit
    && (if prepared then
          && SigsAt(t'.m1, v) == SigsAt(t.m1, v)[k := msg.vcSig]
          && SignersAt(t'.m1Mask, v) == SignersAt(t.m1Mask, v) + bit
          && SigsAt(t'.m2, v) == SigsAt(t.m2, v) && SignersAt(t'.m2Mask, v) == SignersAt(t.m2Mask, v)
        else
          && SigsAt(t'.m2, v) == SigsAt(t.m2, v)[k := msg.vcSig]
          && SignersAt(t'.m2Mask, v) == SignersAt(t.m2Mask, v) + bit
          && SigsAt(t'.m1, v) == SigsAt(t.m1, v) && SignersAt(t'.m1Mask, v) == SignersAt(t.m1Mask, v))
  }

  /** Recording a new sender's verified message keeps the collector true exactly if the sender has a bit. */
  lemma RecordedTrue(t: Tally, t': Tally, members: seq<Key>, msg: ViewChangeMsg, prepared: bool, payload: Payload)
    requires Collected(t, members) && |msg.senders| == 1 && Recorded(t, t', members, msg, prepared)
    requires msg.senders[0] !in SigsAt(t.m3, msg.view)
    requires Signs(msg.viewSig, msg.senders[0], ViewId(msg.view))
    requires prepared ==> payload.size > 0 && Certified(payload, members)
    requires !prepared ==> Signs(msg.vcSig, msg.senders[0], Nil) && payload == t.payload
    ensures var u := t'.(payload := if t.payload.size == 0 then payload else t.payload);
      Collected(u, members) <==> msg.senders[0] in members
  {
    assert Look(OfCollectors, true);
    var v := msg.view;
    var u := t'.(payload := if t.payload.size == 0 then payload else t.payload);
    assert ViewTrue(t, v);
    forall x | x != v ensures SameView(t, u, x) {
      assert SameView(t, t', x);
    }
    OtherViews(t, u, members, v);
    SignersInside(t.m3Mask, v, members);
    RecordedView(t, t', u, members, msg, prepared);
    if msg.senders[0] !in members {
      assert !ViewTrue(u, v);
    }
  }

  lemma RecordedView(t: Tally, t': Tally, u: Tally, members: seq<Key>, msg: ViewChangeMsg, prepared: bool)
    requires ViewTrue(t, msg.view) && |msg.senders| == 1 && Recorded(t, t', members, msg, prepared)
    requires u == t'.(payload := u.payload) && (prepared || t.payload.size > 0 ==> u.payload.size > 0)
    requires msg.senders[0] !in SigsAt(t.m3, msg.view)
    requires msg.senders[0] !in members ==> msg.senders[0] !in SignersAt(t.m3Mask, msg.view)
    requires Signs(msg.viewSig, msg.senders[0], ViewId(msg.view))
    requires !prepared ==> Signs(msg.vcSig, msg.senders[0], Nil)
    ensures ViewTrue(u, msg.view) <==> msg.senders[0] in members
  {
    var k, v := msg.senders[0], msg.view;
    if k !in members {
      Unmarked(u, v, k);
    } else if prepared {
      AddM1(SigsAt(t.m1, v), SigsAt(t.m2, v), SigsAt(t.m3, v), SignersAt(t.m1Mask, v), SignersAt(t.m2Mask, v),
        SignersAt(t.m3Mask, v),
            v, t.payload.size > 0, k, msg.vcSig, msg.viewSig);
    } else {
      AddM2(SigsAt(t.m1, v), SigsAt(t.m2, v), SigsAt(t.m3, v), SignersAt(t.m1Mask, v), SignersAt(t.m2Mask, v),
        SignersAt(t.m3Mask, v),
            v, t.payload.size > 0, k, msg.vcSig, msg.viewSig);
    }
  }

  /** A signature without its bit breaks the view. */
  lemma Unmarked(u: Tally, v: View, k: Key)
    requires k in SigsAt(u.m3, v) && k !in SignersAt(u.m3Mask, v)
    ensures !ViewTrue(u, v)
  {
    assert Look(OfCollectors, true);
    assert k in SigsAt(u.m3, v).Keys;
  }

  lemma AddM1(a1: map<Key, Sig>, a2: map<Key, Sig>, a3: map<Key, Sig>, b1: set<Key>, b2: set<Key>, b3: set<Key>,
              v: View, carried: bool, k: Key, s: Sig, s3: Sig)
    requires OneView(a1, a2, a3, b1, b2, b3, v, carried) && k !in a3 && Signs(s3, k, ViewId(v))
    ensures OneView(a1[k := s], a2, a3[k := s3], b1 + {k}, b2, b3 + {k}, v, true)
  {
    assert Look(OfCollectors, true);
    KeysPut(a3, k, s3);
    KeysPut(a1, k, s);
    PartsPut(b1, b2, b3, k);
  }

  lemma AddM2(a1: map<Key, Sig>, a2: map<Key, Sig>, a3: map<Key, Sig>, b1: set<Key>, b2: set<Key>, b3: set<Key>,
              v: View, carried: bool, k: Key, s: Sig, s3: Sig)
    requires OneView(a1, a2, a3, b1, b2, b3, v, carried) && k !in a3
    requires Signs(s3, k, ViewId(v)) && Signs(s, k, Nil)
    ensures OneView(a1, a2[k := s], a3[k := s3], b1, b2 + {k}, b3 + {k}, v, carried)
  {
    assert Look(OfCollectors, true);
    KeysPut(a3, k, s3);
    KeysPut(a2, k, s);
    PartsPut(b2, b1, b3, k);
    SignsPut(a2, a2[k := s], k, s, Nil);
    SignsPut(a3, a3[k := s3], k, s3, ViewId(v));
  }

  lemma SignsPut(a: map<Key, Sig>, b: map<Key, Sig>, k: Key, s: Sig, m: Msg)
    requires Signs(s, k, m) && b == a[k := s] && forall x :: x in a ==> Signs(a[x], x, m)
    ensures forall x :: x in b ==> Signs(b[x], x, m)
  {
  }

  lemma KeysPut(a: map<Key, Sig>, k: Key, s: Sig)
    ensures a[k := s].Keys == a.Keys + {k}
  {
  }

  lemma PartsPut(x: set<Key>, y: set<Key>, z: set<Key>, k: Key)
    requires x !! y && x + y == z && k !in z
    ensures (x + {k}) !! y && (x + {k}) + y == z + {k} && y + (x + {k}) == z + {k}
  {
  }

  lemma SignersInside(m: Masks, v: View, members: seq<Key>)
    requires MasksOver(m, members)
    ensures forall k :: k in SignersAt(m, v) ==> k in members
  {
  }

  lemma HadEither(t: Tally, v: View, keys: seq<Key>)
    requires ViewTrue(t, v)
    ensures (exists k :: k in keys && k in SigsAt(t.m3, v))
      <==> (exists k :: k in keys && k in SigsAt(t.m1, v)) || (exists k :: k in keys && k in SigsAt(t.m2, v))
  {
    assert Look(OfCollectors, true);
    assert forall k :: k in SigsAt(t.m3, v) <==> k in SigsAt(t.m1, v).Keys + SigsAt(t.m2, v).Keys;
  }

  /** Adding the node's own M1 or M2 signatures, and its M3 signatures, in one view. */
  lemma OwnRecorded(t: Tally, t': Tally, members: seq<Key>, v: View, own: set<Key>, p: Option<Payload>)
    requires Collected(t, members) && own !! SigsAt(t.m3, v).Keys
    requires MasksOver(t'.m1Mask, members) && MasksOver(t'.m2Mask, members) && MasksOver(t'.m3Mask, members)
    requires forall u :: u != v ==> SameView(t, t', u)
    requires OwnView(t, t', v, own) && OwnSigned(t, t', members, v, own, p)
    ensures Collected(t', members)
  {
    assert ViewTrue(t, v);
    OtherViews(t, t', members, v);
    OwnRecordedView(t, t', members, v, own, p);
    forall u ensures ViewTrue(t', u) {
    }
  }

  /** The M3 half: only the M3 parts of t' differ from mid, which has the M1 and M2 parts in place. */
  lemma OwnM3Recorded(t: Tally, mid: Tally, t': Tally, members: seq<Key>, v: View, own: set<Key>, p: Option<Payload>)
    requires Collected(t, members) && own !! SigsAt(t.m3, v).Keys && t.m3 == mid.m3 && t.m3Mask == mid.m3Mask
    requires t' == mid.(m3 := t'.m3, m3Mask := t'.m3Mask) && Elsewhere(t.m3, t.m3Mask, t'.m3, t'.m3Mask, v)
    requires MasksOver(mid.m1Mask, members) && MasksOver(mid.m2Mask, members) && MasksOver(t'.m3Mask, members)
    requires forall u :: u != v ==> SameView(t, mid, u)
    requires OwnSigned(t, mid, members, v, own, p)
    requires OwnView(t, t', v, own)
    ensures Collected(t', members) && forall u :: u != v ==> SameView(t, t', u)
    ensures OwnSigned(t, t', members, v, own, p)
  {
    forall u | u != v ensures SameView(t, t', u) {
      assert SameView(t, mid, u);
    }
    OwnRecorded(t, t', members, v, own, p);
  }

  lemma OwnRecordedView(t: Tally, t': Tally, members: seq<Key>, v: View, own: set<Key>, p: Option<Payload>)
    requires ViewTrue(t, v) && own !! SigsAt(t.m3, v).Keys
    requires OwnView(t, t', v, own) && OwnSigned(t, t', members, v, own, p)
    ensures ViewTrue(t', v)
  {
    ViewParts(t, v);
    var a1, a2, a3 := SigsAt(t.m1, v), SigsAt(t.m2, v), SigsAt(t.m3, v);
    var b1, b2, b3 := SignersAt(t.m1Mask, v), SignersAt(t.m2Mask, v), SignersAt(t.m3Mask, v);
    if p.None? {
      OwnM2(a1, a2, a3, b1, b2, b3, v, t.payload.size > 0, own);
    } else {
      OwnM1(a1, a2, a3, b1, b2, b3, v, t.payload.size > 0, own, SigsAt(t'.m1, v));
    }
  }

  lemma OwnM1(a1: map<Key, Sig>, a2: map<Key, Sig>, a3: map<Key, Sig>, b1: set<Key>, b2: set<Key>, b3: set<Key>,
              v: View, carried: bool, own: set<Key>, a1': map<Key, Sig>)
    requires OneView(a1, a2, a3, b1, b2, b3, v, carried) && own !! b3 && a1'.Keys == a1.Keys + own
    ensures OneView(a1', a2, WithOwn(a3, own, ViewId(v)), b1 + own, b2, b3 + own, v, true)
  {
    assert Look(OfCollectors, true);
    OwnSets(b1, b2, b3, own);
    WithOwnSigns(a3, own, ViewId(v));
  }

  lemma OwnM2(a1: map<Key, Sig>, a2: map<Key, Sig>, a3: map<Key, Sig>, b1: set<Key>, b2: set<Key>, b3: set<Key>,
              v: View, carried: bool, own: set<Key>)
    requires OneView(a1, a2, a3, b1, b2, b3, v, carried) && own !! b3
    ensures OneView(a1, WithOwn(a2, own, Nil), WithOwn(a3, own, ViewId(v)), b1, b2 + own, b3 + own, v, carried)
  {
    assert Look(OfCollectors, true);
    OwnSets(b1, b2, b3, own);
    WithOwnSigns(a3, own, ViewId(v));
    WithOwnSigns(a2, own, Nil);
  }

  lemma WithOwnSigns(a: map<Key, Sig>, own: set<Key>, m: Msg)
    requires forall k :: k in a ==> Signs(a[k], k, m)
    ensures WithOwn(a, own, m).Keys == a.Keys + own
    ensures forall k :: k in WithOwn(a, own, m) ==> Signs(WithOwn(a, own, m)[k], k, m)
  {
  }

  lemma OwnSets(x: set<Key>, y: set<Key>, z: set<Key>, own: set<Key>)
    requires x !! y && x + y == z && own !! z
    ensures (x + own) !! y && (x + own) + y == z + own && x !! (y + own) && x + (y + own) == z + own
  {
  }

  // NEWVIEW messages.

  /** The signature is that of exactly the masked keys, `keys`, on message m. */
  ghost predicate Testifies(s: Signed, members: seq<Key>, keys: set<Key>, m: Msg) {
    |s.bits| == |members| && Signers(Mask(members, s.bits)) == keys && VerifyHash(s.sig, keys, m)
  }

  /** AggregateSig over the stored signatures, in any order. */
  method AggregateSig(sigs: map<Key, Sig>, ghost m: Msg) returns (sig: Sig)
    requires forall k :: k in sigs ==> Signs(sigs[k], k, m)
    ensures VerifyHash(sig, sigs.Keys, m)
  {
    var all: multiset<(Key, Msg)> := multiset{};
    var todo := sigs.Keys;
    AllOfRest(sigs.Keys, m);
    while todo != {}
      invariant todo <= sigs.Keys && all == Rest(sigs.Keys, todo, m)
      decreases todo
    {
      var k :| k in todo;
      RestNext(sigs.Keys, todo, k, m);
      assert Signs(sigs[k], k, m);
      all := all + Content(sigs[k]);
      todo := todo - {k};
    }
    sig := Aggregate(all);
  }

  /** What the keys outside `todo` signed. */
  ghost function Rest(keys: set<Key>, todo: set<Key>, m: Msg): multiset<(Key, Msg)> {
    AllOf(keys - todo, m)
  }

  lemma AllOfRest(keys: set<Key>, m: Msg)
    ensures Rest(keys, keys, m) == multiset{} && Rest(keys, {}, m) == AllOf(keys, m)
  {
    assert keys - {} == keys && keys - keys == {};
  }

  lemma RestNext(keys: set<Key>, todo: set<Key>, k: Key, m: Msg)
    requires k in todo && todo <= keys
    ensures Rest(keys, todo - {k}, m) == Rest(keys, todo, m) + multiset{(k, m)}
  {
    var old1 := keys - todo;
    assert keys - (todo - {k}) == old1 + {k};
    assert (set x | x in old1 + {k} :: (x, m)) == (set x | x in old1 :: (x, m)) + {(k, m)};
    assert (k, m) !in (set x | x in old1 :: (x, m));
  }

  /** The message carries what the collector holds. */
  ghost predicate BuiltFrom(n: NewView, t: Tally, v: View, blockNum: nat, key: Key, log: Log, members: seq<Key>) {
    && n.view == v && n.blockNum == blockNum && n.sender == key
    && (if t.payload.size > 0 && t.payload.hash in log.blocks
        then n.payload == t.payload && n.block == Encoded(log.blocks[t.payload.hash])
        else n.payload == NoPayload && n.block == NoBlock)
    && SigsAt(t.m3, v) != map[] && n.m3.Some? && Testifies(n.m3.value, members, SigsAt(t.m3, v).Keys, ViewId(v))
    && (n.m2.None? <==> SigsAt(t.m2, v) == map[])
    && (n.m2.Some? ==> Testifies(n.m2.value, members, SigsAt(t.m2, v).Keys, Nil))
  }

  /** selfCommit's gate: the block of the payload is in the log and the certificate can be read. */
  predicate SelfCommit(log: Log, p: Payload) {
    p.hash in log.blocks && p.size >= 32 + 96 && p.sig.Some?
  }

  /** What a validator checks a NEWVIEW message against. */
  datatype Validator = Validator(members: seq<Key>, blockNum: nat, curView: View)

  datatype Verdict = Rejected | Accepted(prepared: Option<Block>)

  /** The mask a receiver builds: a bitmap of the wrong length leaves it empty. */
  function ReadMask(bits: seq<bool>, members: seq<Key>): Mask {
    if |bits| == |members| then Mask(members, bits) else NewMask(members)
  }

  /** onNewView: parsing, sanity checks, VerifyNewViewMsg, the quorum and the M1 payload. */
  method OnNewView(n: NewView, r: Validator, quorum: Mask -> bool, verifyBlock: Block -> bool)
    returns (verdict: Verdict)
    ensures verdict.Accepted? <==> Acceptable(n, r, quorum, verifyBlock)
    ensures verdict.Accepted? ==> verdict.prepared == if CarriesBlock(n) then Some(n.block.block) else None
  {
    if r.blockNum != n.blockNum || n.view < r.curView || n.m3.None? {
      return Rejected;
    }
    var m3Mask := ReadMask(n.m3.value.bits, r.members);
    var m3Keys := SignersOf(m3Mask);
    if !VerifyHash(n.m3.value.sig, m3Keys, ViewId(n.view)) {
      return Rejected;
    }
    if n.m2.Some? {
      var m2Keys := SignersOf(ReadMask(n.m2.value.bits, r.members));
      if !VerifyHash(n.m2.value.sig, m2Keys, Nil) {
        return Rejected;
      }
    }
    var prepared: Option<Block> := None;
    if CarriesBlock(n) {
      if n.block == Garbage || n.block.block.hash != n.payload.hash || !verifyBlock(n.block.block) {
        return Rejected;
      }
      prepared := Some(n.block.block);
    }
    if !quorum(m3Mask) {
      return Rejected;
    }
    if NeedsM1(n, r) {
      if n.payload.size < 32 + 96 || n.payload.sig.None? {
        return Rejected;
      }
      var signers := SignersOf(CertMask(n.payload, r.members));
      if !VerifyHash(n.payload.sig.value, signers, BlockHash(n.payload.hash)) {
        return Rejected;
      }
    }
    CertMaskSigners(n.payload, r.members);
    return Accepted(prepared);
  }

  predicate CarriesBlock(n: NewView) {
    n.payload.size >= ValidPayloadLength && n.block != NoBlock
  }

  /** The receiver asks for a valid M1 payload unless M2 accounts for every M3 signature. */
  predicate NeedsM1(n: NewView, r: Validator)
    requires n.m3.Some?
  {
    n.m2.None? || Count(ReadMask(n.m3.value.bits, r.members).bits) > Count(ReadMask(n.m2.value.bits, r.members).bits)
  }

  ghost predicate Acceptable(n: NewView, r: Validator, quorum: Mask -> bool, verifyBlock: Block -> bool) {
    && n.blockNum == r.blockNum && r.curView <= n.view && n.m3.Some?
    && VerifyHash(n.m3.value.sig, Signers(ReadMask(n.m3.value.bits, r.members)), ViewId(n.view))
    && (n.m2.Some? ==> VerifyHash(n.m2.value.sig, Signers(ReadMask(n.m2.value.bits, r.members)), Nil))
    && (CarriesBlock(n) ==> n.block.Encoded? && n.block.block.hash == n.payload.hash && verifyBlock(n.block.block))
    && quorum(ReadMask(n.m3.value.bits, r.members))
    && (NeedsM1(n, r) ==> Certified(n.payload, r.members))
  }

  /**
   * A NEWVIEW that a leader builds once it has a quorum of M3 signatures, and after
   * selfCommit's gate if it holds a prepared payload, passes every check of a
   * validator with the same committee, block number and block verifier, exactly if
   * that verifier accepts the block filed under the payload's hash.
   */
  lemma NewViewAccepted(t: Tally, members: seq<Key>, log: Log, n: NewView, v: View, key: Key, r: Validator,
                        quorum: Mask -> bool, verifyBlock: Block -> bool)
    requires Collected(t, members) && LogSound(log, members) && r.members == members && r.curView <= v
    requires BuiltFrom(n, t, v, r.blockNum, key, log, members)
    requires quorum(ReadMask(n.m3.value.bits, members))
    requires t.payload.size > 0 ==> SelfCommit(log, t.payload)
    ensures Acceptable(n, r, quorum, verifyBlock)
      <==> (t.payload.size > 0 ==> verifyBlock(log.blocks[t.payload.hash]))
    ensures NeedsM1(n, r) <==> SigsAt(t.m1, v) != map[]
  {
    assert ViewTrue(t, v);
    ViewParts(t, v);
    NeedsM1Means(t, members, n, v, r);
  }

  /** M3 signatures outnumber M2 signatures, or M2 is absent, exactly if there is an M1 signature in the view. */
  lemma NeedsM1Means(t: Tally, members: seq<Key>, n: NewView, v: View, r: Validator)
    requires Distinct(members) && r.members == members && ViewTrue(t, v)
    requires n.m3.Some? && Testifies(n.m3.value, members, SigsAt(t.m3, v).Keys, ViewId(v))
    requires n.m2.None? <==> SigsAt(t.m2, v) == map[]
    requires n.m2.Some? ==> Testifies(n.m2.value, members, SigsAt(t.m2, v).Keys, Nil)
    ensures NeedsM1(n, r) <==> SigsAt(t.m1, v) != map[] || SigsAt(t.m3, v) == map[]
  {
    ViewParts(t, v);
    var k1, k2, k3 := SigsAt(t.m1, v).Keys, SigsAt(t.m2, v).Keys, SigsAt(t.m3, v).Keys;
    CountSigners(Mask(members, n.m3.value.bits));
    if n.m2.Some? {
      CountSigners(Mask(members, n.m2.value.bits));
      assert |k3| == |k1| + |k2| by { assert k3 == k1 + k2 && k1 !! k2; }
      assert k1 != {} <==> |k1| > 0;
      assert SigsAt(t.m1, v) == map[] <==> k1 == {};
      assert k3 != {} by { assert k2 != {}; }
    } else {
      assert k3 == k1 + {};
    }
  }

  /** What is logged of the first M1 message reads back as its payload, for its view and block number. */
  lemma LoggedBack(log: Log, msg: ViewChangeMsg)
    requires msg.payload.size >= 32
    ensures var log' := Logged(log, msg);
      && |log'.prepared| == |log.prepared| + 1 && log.prepared <= log'.prepared
      && var last := log'.prepared[|log.prepared|];
      && PayloadOf(last) == msg.payload && last.view == msg.view && last.blockNum == msg.blockNum
      && (forall h :: h in log'.blocks ==>
            if msg.block.Encoded? && h == msg.block.block.hash then log'.blocks[h] == msg.block.block
            else h in log.blocks && log'.blocks[h] == log.blocks[h])
      && log.blocks.Keys <= log'.blocks.Keys && (msg.block.Encoded? ==> msg.block.block.hash in log'.blocks)
  {
  }

  // What the checks on a view-change message leave open.

  /**
   * After the first M1 message selfCommit finds the payload's block exactly if the message brought
   * it, or it was known.
   */
  lemma FirstM1Commits(log: Log, members: seq<Key>, quorum: Mask -> bool, verifyBlock: Block -> bool,
                       msg: ViewChangeMsg)
    requires |msg.senders| == 1 && msg.payload.size >= ValidPayloadLength
    requires PassesM1(map[], members, quorum, verifyBlock, msg)
    ensures SelfCommit(Logged(log, msg), msg.payload)
      <==> msg.block.block.hash == msg.payload.hash || msg.payload.hash in log.blocks
  {
  }

  // A committee of one, key 5, whose members accept the block with hash 2 and not the one with hash 1.

  const Known: Block := Block(1, 0, 0)
  const Brought: Block := Block(2, 0, 0)

  predicate OnlySecond(b: Block) {
    b.hash == 2
  }

  predicate Always(m: Mask) {
    true
  }

  function FirstPayload(): Payload {
    Payload(ValidPayloadLength, 1, Some(SignHash(5, BlockHash(1))), [true])
  }

  /** An M1 message with a certificate for hash 1 and the block with hash 2. */
  function MixedM1(): ViewChangeMsg {
    ViewChangeMsg(1, 0, [5], 5, FirstPayload(), Encoded(Brought), SignHash(5, Prepared(FirstPayload())),
      SignHash(5, ViewId(1)))
  }

  function MixedTally(): Tally {
    var mask := Mask([5], [true]);
    Tally(map[1 := map[5 := MixedM1().vcSig]], map[], map[1 := map[5 := MixedM1().viewSig]],
          map[1 := mask], map[], map[1 := mask], FirstPayload())
  }

  function MixedNewView(): NewView {
    NewView(1, 0, 5, FirstPayload(), Encoded(Known), None, Some(Signed(SignHash(5, ViewId(1)), [true])))
  }

  lemma FiveSigns()
    ensures Signers(Mask([5], [true])) == {5} && Certified(FirstPayload(), [5])
  {
    var m := Mask([5], [true]);
    assert m.bits[0] && m.publics[0] == 5;
    assert Signers(m) == {5};
    assert CertSigners(FirstPayload(), [5]) == {5} by {
      CertMaskSigners(FirstPayload(), [5]);
    }
    SingleSigner(FirstPayload().sig.value, 5, BlockHash(1));
  }

  lemma MixedPasses()
    ensures PassesM1(map[], [5], Always, OnlySecond, MixedM1()) && MixedM1().block.block.hash != MixedM1().payload.hash
  {
    FiveSigns();
    SingleSigner(MixedM1().vcSig, 5, Prepared(FirstPayload()));
  }

  lemma MixedRecorded()
    ensures Recorded(EmptyTally, MixedTally().(payload := NoPayload), [5], MixedM1(), true)
  {
    FiveSigns();
    assert map[][5 := MixedM1().vcSig] == map[5 := MixedM1().vcSig];
  }

  lemma EmptyCollected(members: seq<Key>)
    requires Distinct(members)
    ensures Collected(EmptyTally, members)
  {
    forall v ensures ViewTrue(EmptyTally, v) {
      assert Look(OfCollectors, true);
    }
  }

  /** The leader stores such a message and builds a NEWVIEW from it that every member refuses. */
  lemma MixedM1Refused()
    ensures PassesM1(map[], [5], Always, OnlySecond, MixedM1()) && MixedM1().block.block.hash != MixedM1().payload.hash
    ensures var log := Logged(Log(map[1 := Known], []), MixedM1());
      && Collected(MixedTally(), [5]) && SelfCommit(log, FirstPayload())
      && BuiltFrom(MixedNewView(), MixedTally(), 1, 0, 5, log, [5])
      && !Acceptable(MixedNewView(), Validator([5], 0, 1), Always, OnlySecond)
  {
    MixedPasses();
    FiveSigns();
    EmptyCollected([5]);
    MixedRecorded();
    RecordedTrue(EmptyTally, MixedTally().(payload := NoPayload), [5], MixedM1(), true, FirstPayload());
    SingleSigner(MixedM1().viewSig, 5, ViewId(1));
  }

  /** An M2 message from key 9, which is not in the committee. */
  function OutsideM2(): ViewChangeMsg {
    ViewChangeMsg(1, 0, [9], 5, NoPayload, NoBlock, SignHash(9, Nil), SignHash(9, ViewId(1)))
  }

  function OutsideTally(): Tally {
    Tally(map[], map[1 := map[9 := SignHash(9, Nil)]], map[1 := map[9 := SignHash(9, ViewId(1))]],
          map[], map[1 := NewMask([5])], map[1 := NewMask([5])], NoPayload)
  }

  /** It passes every check here, and the collector's signatures and bits no longer agree. */
  lemma OutsideSenderBreaks()
    ensures SanityCheck(Leader([5], [5], 5, 0, 1, 1, true), OutsideM2()) && VerifyHash(OutsideM2().vcSig, {9}, Nil)
    ensures Collected(EmptyTally, [5]) && Recorded(EmptyTally, OutsideTally(), [5], OutsideM2(), false)
    ensures !Collected(OutsideTally(), [5])
  {
    SingleSigner(OutsideM2().viewSig, 9, ViewId(1));
    SingleSigner(OutsideM2().vcSig, 9, Nil);
    EmptyCollected([5]);
    NewMaskEmpty([5]);
    assert map[][9 := SignHash(9, Nil)] == map[9 := SignHash(9, Nil)];
    assert map[][9 := SignHash(9, ViewId(1))] == map[9 := SignHash(9, ViewId(1))];
    RecordedTrue(EmptyTally, OutsideTally(), [5], OutsideM2(), false, NoPayload);
  }
}
