/** Whole-run guarantees of the tag registry: its size, the agreement of its two indexes, and when
    a recycled tag can collide with a live one. */
module OrderTagRuns {
  import opened OrderedDicts
  import opened OrderTags

  /** `Place` allocates a tag and registers it at once, as the adapter does for every order. */
  datatype Op =
    | Place(info: map<string, string>)
    | Update(tag: int, info: map<string, string>)
    | BindOp(btag: Option<int>, digest: Option<string>)
    | ForgetOp(ftag: Option<int>, fdigest: Option<string>)

  function Step(r: Registry, op: Op): Registry {
    match op
    case Place(info) => Register(r.(counter := NextTag(r.counter)), NextTag(r.counter), None, info)
    case Update(tag, info) => Register(r, tag, None, info)
    case BindOp(tag, digest) => Bind(r, tag, digest)
    case ForgetOp(tag, digest) => Forget(r, tag, digest)
  }

  function Run(r: Registry, ops: seq<Op>): Registry
    decreases |ops|
  {
    if ops == [] then r else Run(Step(r, ops[0]), ops[1..])
  }

  // ----- size --------------------------------------------------------------

  ghost predicate Bounded(r: Registry) {
    |r.byTag.order| <= MAX_ENTRIES && |r.digestToTag.order| <= MAX_ENTRIES
  }

  lemma {:induction false} EvictBounds(r: Registry)
    ensures Bounded(Evict(r)) && Evict(r).counter == r.counter
    decreases |r.byTag.order|
  {
    if |r.byTag.order| > MAX_ENTRIES {
      EvictBounds(r.(byTag := r.byTag.PopFirst(),
                     digestToTag := Unlink(r.digestToTag, r.byTag.at[r.byTag.order[0]])));
    }
  }

  lemma StepBounds(r: Registry, op: Op)
    requires Bounded(r)
    ensures Bounded(Step(r, op))
  {
    hide OrderedDict.Valid, Evict, OrderedDict.Put, OrderedDict.MoveToEnd;
    match op
    case Place(info) =>
      var t := NextTag(r.counter);
      var e := MetaAt(r, t);
      EvictBounds(r.(counter := t, byTag := Touch(r.byTag, t, e.(tag := t, info := e.info + info))));
    case Update(tag, info) =>
      var e := MetaAt(r, tag);
      EvictBounds(r.(byTag := Touch(r.byTag, tag, e.(tag := tag, info := e.info + info))));
    case BindOp(tag, digest) =>
      if tag.Some? && Truthy(digest) { EvictBounds(Link(r, tag.value, digest.value)); }
    case ForgetOp(tag, digest) =>
      RemovalShrinks(r, tag, digest);
  }

  lemma RemovalShrinks(r: Registry, tag: Option<int>, digest: Option<string>)
    ensures |Forget(r, tag, digest).byTag.order| <= |r.byTag.order|
    ensures |Forget(r, tag, digest).digestToTag.order| <= |r.digestToTag.order|
  {
  }

  /** Both maps stay within the cap in every run, with no discipline at all. */
  lemma {:induction false} SizesBounded(r: Registry, ops: seq<Op>)
    requires Bounded(r)
    ensures Bounded(Run(r, ops))
    decreases |ops|
  {
    if ops != [] {
      StepBounds(r, ops[0]);
      SizesBounded(Step(r, ops[0]), ops[1..]);
    }
  }

  // ----- what an entry holds, and how long ---------------------------------

  /** Eviction drops the oldest tags until the cap holds, whatever happens to the digests. */
  lemma {:induction false} EvictTrimsTags(r: Registry)
    ensures Evict(r).byTag == r.byTag.Trim(MAX_ENTRIES) && Evict(r).counter == r.counter
    decreases |r.byTag.order|
  {
    if |r.byTag.order| > MAX_ENTRIES {
      EvictTrimsTags(r.(byTag := r.byTag.PopFirst(),
                        digestToTag := Unlink(r.digestToTag, r.byTag.at[r.byTag.order[0]])));
    }
  }

  lemma TouchedTagStays(r: Registry, r': Registry, t: int, m: Meta)
    requires r'.byTag == Touch(r.byTag, t, m)
    ensures t in Evict(r').byTag.at && Evict(r').byTag.at[t] == m
    ensures forall u :: u in Evict(r').byTag.at && u != t ==> u in r.byTag.at && Evict(r').byTag.at[u] == r.byTag.at[u]
  {
    hide OrderedDict.Valid, OrderedDict.Put, OrderedDict.MoveToEnd, OrderedDict.Trim, Evict, Without;
    EvictTrimsTags(r');
    TrimKeeps(r'.byTag, MAX_ENTRIES);
    TouchOrder(r.byTag, t, m);
    DictKeys(r.byTag);
    NewestTagOnly(r.byTag.order, t);
    WorkingSetSurvives(r'.byTag, t, {}, MAX_ENTRIES);
  }

  lemma NewestTagOnly(order: seq<int>, t: int)
    requires NoDup(order)
    ensures AfterOnly(Touched(order, t), t, {})
  {
    WithoutElems(order, t);
    if t in order { assert t in Without(order, t) ==> t in Elems(Without(order, t)); }
  }

  /** Registering merges: the new digest, if one is given, and the new values win over what the tag had,
      the rest of it stays, and no other entry changes. */
  lemma RegisterMerges(r: Registry, t: int, digest: Option<string>, info: map<string, string>)
    ensures t in Register(r, t, digest, info).byTag.at
    ensures var m, was := Register(r, t, digest, info).byTag.at[t], MetaAt(r, t);
            && m.tag == t
            && (digest.Some? ==> m.digest == digest)
            && (digest.None? && t in r.byTag.at ==> m.digest == r.byTag.at[t].digest)
            && (digest.None? && t !in r.byTag.at ==> m.digest == None)
            && (forall k :: k in info ==> k in m.info && m.info[k] == info[k])
            && (forall k :: t in r.byTag.at && k in r.byTag.at[t].info && k !in info ==>
                  k in m.info && m.info[k] == r.byTag.at[t].info[k])
            && (forall k :: k in m.info ==> k in info || (t in r.byTag.at && k in r.byTag.at[t].info))
    ensures forall u :: u in Register(r, t, digest, info).byTag.at && u != t ==>
              u in r.byTag.at && Register(r, t, digest, info).byTag.at[u] == r.byTag.at[u]
  {
    hide OrderedDict.Valid, Evict;
    var e := MetaAt(r, t);
    var m := Meta(t, if digest.Some? then digest else e.digest, e.info + info);
    TouchedTagStays(r, r.(byTag := Touch(r.byTag, t, m)), t, m);
  }

  /** Binding changes an entry's digest and nothing else of it. */
  lemma BindSetsDigest(r: Registry, t: int, d: string)
    requires d != ""
    ensures var b := Bind(r, Some(t), Some(d));
            && t in b.byTag.at && b.byTag.at[t] == MetaAt(r, t).(digest := Some(d)) && b.counter == r.counter
            && (forall u :: u in b.byTag.at && u != t ==> u in r.byTag.at && b.byTag.at[u] == r.byTag.at[u])
  {
    hide OrderedDict.Valid, Evict;
    var m := MetaAt(r, t).(digest := Some(d));
    EvictTrimsTags(Link(r, t, d));
    TouchedTagStays(r, Link(r, t, d), t, m);
  }

  /** Forgetting takes the entries named by the digest and by the tag, with their digests, and no other. */
  lemma ForgetTakesItsOwn(r: Registry, tag: Option<int>, digest: Option<string>)
    ensures var f := Forget(r, tag, digest);
            var named := (if Truthy(digest) && digest.value in r.digestToTag.at
                          then {r.digestToTag.at[digest.value]} else {}) + (if tag.Some? then {tag.value} else {});
            && (forall t :: t in f.byTag.at <==> t in r.byTag.at && t !in named)
            && (forall t :: t in f.byTag.at ==> f.byTag.at[t] == r.byTag.at[t])
            && (Truthy(digest) ==> digest.value !in f.digestToTag.at)
            && (forall d :: d in f.digestToTag.at ==>
                  d in r.digestToTag.at && f.digestToTag.at[d] == r.digestToTag.at[d])
            && f.counter == r.counter
  {
    hide OrderedDict.Valid;
  }

  /** The tag an operation registers, updates or binds. */
  function TagOf(r: Registry, op: Op): Option<int> {
    match op
    case Place(_) => Some(NextTag(r.counter))
    case Update(t, _) => Some(t)
    case BindOp(t, d) => if t.Some? && Truthy(d) then t else None
    case ForgetOp(_, _) => None
  }

  /** The run touches only t and `busy`, and forgets t neither by tag nor by a digest bound to it. */
  ghost predicate Leaves(r: Registry, ops: seq<Op>, t: int, busy: set<int>)
    decreases |ops|
  {
    ops != [] ==>
      && (TagOf(r, ops[0]).Some? ==> TagOf(r, ops[0]).value in busy + {t})
      && (ops[0].ForgetOp? ==>
            && ops[0].ftag != Some(t)
            && !(Truthy(ops[0].fdigest) && ops[0].fdigest.value in r.digestToTag.at
                 && r.digestToTag.at[ops[0].fdigest.value] == t))
      && Leaves(Step(r, ops[0]), ops[1..], t, busy)
  }

  lemma TouchLeaves(r: Registry, r': Registry, m: int, v: Meta, t: int, busy: set<int>)
    requires t in r.byTag.at && AfterOnly(r.byTag.order, t, busy) && |busy| < MAX_ENTRIES && m in busy + {t}
    requires r'.byTag == Touch(r.byTag, m, v)
    ensures t in Evict(r').byTag.at && AfterOnly(Evict(r').byTag.order, t, busy)
  {
    hide OrderedDict.Valid, OrderedDict.Put, OrderedDict.MoveToEnd, OrderedDict.Trim, Evict, Touched, AfterOnly;
    EvictTrimsTags(r');
    DictKeys(r.byTag);
    TouchOrder(r.byTag, m, v);
    AfterOnlyTouched(r.byTag.order, m, t, busy);
    WorkingSetSurvives(r'.byTag, t, busy, MAX_ENTRIES);
  }

  lemma LeavesStep(r: Registry, op: Op, t: int, busy: set<int>)
    requires t in r.byTag.at && AfterOnly(r.byTag.order, t, busy) && |busy| < MAX_ENTRIES && Leaves(r, [op], t, busy)
    ensures t in Step(r, op).byTag.at && AfterOnly(Step(r, op).byTag.order, t, busy)
  {
    hide OrderedDict.Valid, Evict, AfterOnly, Touch, Without;
    assert [op][0] == op;
    match op
    case Place(info) =>
      var n := NextTag(r.counter);
      var e := MetaAt(r, n);
      var m := Meta(n, e.digest, e.info + info);
      TouchLeaves(r, r.(counter := n, byTag := Touch(r.byTag, n, m)), n, m, t, busy);
    case Update(n, info) =>
      var e := MetaAt(r, n);
      var m := Meta(n, e.digest, e.info + info);
      TouchLeaves(r, r.(byTag := Touch(r.byTag, n, m)), n, m, t, busy);
    case BindOp(n, d) =>
      if n.Some? && Truthy(d) {
        TouchLeaves(r, Link(r, n.value, d.value), n.value, MetaAt(r, n.value).(digest := d), t, busy);
      }
    case ForgetOp(n, d) =>
      if Truthy(d) && d.value in r.digestToTag.at {
        AfterOnlyWithout(r.byTag.order, r.digestToTag.at[d.value], t, busy);
      }
      var f := ForgetDigest(r, d);
      if n.Some? && n.value in f.byTag.at { AfterOnlyWithout(f.byTag.order, n.value, t, busy); }
  }

  /** A registered tag stays registered while fewer than 8192 other tags are touched after it and
      nobody forgets it. */
  lemma {:induction false} TagStays(r: Registry, ops: seq<Op>, t: int, busy: set<int>)
    requires t in r.byTag.at && AfterOnly(r.byTag.order, t, busy) && |busy| < 8192
    requires Leaves(r, ops, t, busy)
    ensures t in Run(r, ops).byTag.at
    decreases |ops|
  {
    hide OrderedDict.Valid, Step, AfterOnly, TagOf;
    if ops != [] {
      assert [ops[0]][1..] == [];
      LeavesStep(r, ops[0], t, busy);
      TagStays(Step(r, ops[0]), ops[1..], t, busy);
    }
  }

  // ----- index agreement ---------------------------------------------------

  /** A tag index and a digest index that are each other's inverse. */
  ghost predicate Inverse(tags: map<int, Meta>, digests: map<string, int>) {
    && (forall d :: d in digests ==> digests[d] in tags && d != "" && tags[digests[d]].digest == Some(d))
    && (forall t :: t in tags && Truthy(tags[t].digest) ==>
          tags[t].digest.value in digests && digests[tags[t].digest.value] == t)
  }

  ghost predicate Agree(r: Registry) { Inverse(r.byTag.at, r.digestToTag.at) }

  lemma InverseLink(tags: map<int, Meta>, digests: map<string, int>, t: int, m: Meta)
    requires Inverse(tags, digests)
    requires t in tags && Truthy(tags[t].digest) ==> tags[t].digest == m.digest
    requires Truthy(m.digest) && m.digest.value in digests ==> digests[m.digest.value] == t
    ensures Inverse(tags[t := m], if Truthy(m.digest) then digests[m.digest.value := t] else digests)
  {
  }

  lemma InverseUnlink(tags: map<int, Meta>, digests: map<string, int>, t: int)
    requires Inverse(tags, digests) && t in tags
    ensures Inverse(tags - {t}, if Truthy(tags[t].digest) then digests - {tags[t].digest.value} else digests)
  {
  }

  /** One digest per tag and one tag per digest: what a caller can check before it binds. */
  predicate CleanBind(r: Registry, t: int, d: string) {
    && (t in r.byTag.at && Truthy(r.byTag.at[t].digest) ==> r.byTag.at[t].digest == Some(d))
    && (d in r.digestToTag.at ==> r.digestToTag.at[d] == t)
  }

  /** The one unclean bind that repairs itself: the digest map is full and the stale digest is
      its oldest entry, so the eviction that follows removes exactly that entry. */
  predicate SelfRepairing(r: Registry, t: int, d: string) {
    && t in r.byTag.at && Truthy(r.byTag.at[t].digest) && r.byTag.at[t].digest != Some(d)
    && d !in r.digestToTag.at
    && |r.digestToTag.order| == MAX_ENTRIES
    && r.digestToTag.order[0] == r.byTag.at[t].digest.value
  }

  /** While the indexes agree there are at most as many digests as tags. */
  lemma AgreeSizes(r: Registry)
    requires Agree(r)
    ensures |r.digestToTag.order| <= |r.byTag.order|
  {
    var d := r.digestToTag;
    var tags := seq(|d.order|, i requires 0 <= i < |d.order| => d.at[d.order[i]]);
    DictKeys(d);
    DictKeys(r.byTag);
    assert NoDup(tags) by {
      forall i, j | 0 <= i < j < |tags| ensures tags[i] != tags[j] {
        assert r.byTag.at[tags[i]].digest == Some(d.order[i]);
        assert r.byTag.at[tags[j]].digest == Some(d.order[j]);
      }
    }
    NoDupFits(tags, r.byTag.order);
  }

  /** Eviction after one insertion: at most one tag leaves, with its digest. */
  function EvictOne(r: Registry): Registry {
    if |r.byTag.order| > MAX_ENTRIES then
      r.(byTag := r.byTag.PopFirst(), digestToTag := Unlink(r.digestToTag, r.byTag.at[r.byTag.order[0]]))
    else r
  }

  lemma EvictIsEvictOne(r: Registry)
    requires |r.byTag.order| <= MAX_ENTRIES + 1
    ensures Evict(r) == EvictOne(r).(digestToTag := EvictOne(r).digestToTag.Trim(MAX_ENTRIES))
  {
    if |r.byTag.order| > MAX_ENTRIES {
      assert Evict(r) == Evict(EvictOne(r));
    }
  }

  lemma EvictOneAgrees(r: Registry)
    requires Agree(r)
    ensures Agree(EvictOne(r))
  {
    if |r.byTag.order| > MAX_ENTRIES {
      InverseUnlink(r.byTag.at, r.digestToTag.at, r.byTag.order[0]);
    }
  }

  /** From agreeing indexes the digest-trimming loop finds nothing to drop. */
  lemma EvictKeepsAgreement(r: Registry)
    requires Agree(r) && |r.byTag.order| <= MAX_ENTRIES + 1
    ensures Evict(r) == EvictOne(r) && Agree(Evict(r))
  {
    EvictIsEvictOne(r);
    EvictOneAgrees(r);
    AgreeSizes(EvictOne(r));
  }

  /** A bind that needs no room for its tag evicts no tag. */
  lemma BindInPlace(r: Registry, t: int, d: string)
    requires |r.byTag.order| <= MAX_ENTRIES && d != ""
    requires t in r.byTag.at || |r.byTag.order| < MAX_ENTRIES
    ensures Bind(r, Some(t), Some(d)).byTag == Link(r, t, d).byTag
    ensures Bind(r, Some(t), Some(d)).digestToTag == Link(r, t, d).digestToTag.Trim(MAX_ENTRIES)
  {
    EvictIsEvictOne(Link(r, t, d));
  }

  /** A bind of an unknown tag in a full registry evicts the oldest tag, with its digest. */
  lemma BindWhenFull(r: Registry, t: int, d: string)
    requires |r.byTag.order| == MAX_ENTRIES && d != "" && t !in r.byTag.at
    ensures Bind(r, Some(t), Some(d)).byTag.at
            == r.byTag.at[t := MetaAt(r, t).(digest := Some(d))] - {r.byTag.order[0]}
    ensures r.byTag.order[0] in r.byTag.at
    ensures r.byTag.at[r.byTag.order[0]].digest == Some(d) ==> d !in Bind(r, Some(t), Some(d)).digestToTag.at
  {
    TouchOrder(r.byTag, t, MetaAt(r, t).(digest := Some(d)));
    EvictIsEvictOne(Link(r, t, d));
  }

  /** In agreeing, bounded indexes a bind keeps them agreeing exactly when it is clean, or when it
      happens to evict its own stale digest. */
  lemma BindKeepsAgreementIff(r: Registry, t: int, d: string)
    requires Agree(r) && Bounded(r) && d != ""
    ensures Agree(Bind(r, Some(t), Some(d))) <==> CleanBind(r, t, d) || SelfRepairing(r, t, d)
  {
    hide OrderedDict.Valid, Evict;
    if CleanBind(r, t, d) {
      var l := Link(r, t, d);
      InverseLink(r.byTag.at, r.digestToTag.at, t, MetaAt(r, t).(digest := Some(d)));
      EvictKeepsAgreement(l);
    } else if d in r.digestToTag.at {
      DigestStolen(r, t, d);
    } else {
      StaleDigest(r, t, d);
    }
  }

  /** Binding a digest that belongs to another tag breaks agreement. */
  lemma DigestStolen(r: Registry, t: int, d: string)
    requires Agree(r) && Bounded(r) && d != ""
    requires d in r.digestToTag.at && r.digestToTag.at[d] != t
    ensures !Agree(Bind(r, Some(t), Some(d)))
  {
    hide OrderedDict.Valid, Bind, Evict, Link, Inverse;
    var b := Bind(r, Some(t), Some(d));
    var other := r.digestToTag.at[d];
    OwnerOf(r.byTag.at, r.digestToTag.at, d);
    if t in r.byTag.at || |r.byTag.order| < MAX_ENTRIES {
      BindInPlace(r, t, d);
      LinkTags(r, t, d);
      TwoOwners(b.byTag.at, b.digestToTag.at, t, other, d);
    } else {
      BindWhenFull(r, t, d);
      if r.byTag.order[0] == other {
        Orphan(b.byTag.at, b.digestToTag.at, t, d);
      } else {
        TwoOwners(b.byTag.at, b.digestToTag.at, t, other, d);
      }
    }
  }

  lemma LinkTags(r: Registry, t: int, d: string)
    ensures Link(r, t, d).byTag.at == r.byTag.at[t := MetaAt(r, t).(digest := Some(d))]
  {
  }

  lemma OwnerOf(tags: map<int, Meta>, digests: map<string, int>, d: string)
    requires Inverse(tags, digests) && d in digests
    ensures digests[d] in tags && tags[digests[d]].digest == Some(d)
  {
  }

  lemma Orphan(tags: map<int, Meta>, digests: map<string, int>, t: int, d: string)
    requires t in tags && d != "" && tags[t].digest == Some(d) && d !in digests
    ensures !Inverse(tags, digests)
  {
  }

  lemma TwoOwners(tags: map<int, Meta>, digests: map<string, int>, t: int, u: int, d: string)
    requires t != u && t in tags && u in tags && d != ""
    requires tags[t].digest == Some(d) && tags[u].digest == Some(d)
    ensures !Inverse(tags, digests)
  {
  }

  /** Binding a second digest to a tag leaves the first one behind, unless it is evicted at once. */
  lemma StaleDigest(r: Registry, t: int, d: string)
    requires Agree(r) && Bounded(r) && d != "" && d !in r.digestToTag.at
    requires t in r.byTag.at && Truthy(r.byTag.at[t].digest) && r.byTag.at[t].digest != Some(d)
    ensures Agree(Bind(r, Some(t), Some(d))) <==> SelfRepairing(r, t, d)
  {
    var b := Bind(r, Some(t), Some(d));
    var stale := r.byTag.at[t].digest.value;
    var m := r.byTag.at[t].(digest := Some(d));
    BindInPlace(r, t, d);
    TouchOrder(r.digestToTag, d, t);
    assert b.byTag.at == r.byTag.at[t := m];
    if SelfRepairing(r, t, d) {
      assert b.digestToTag.at == r.digestToTag.at[d := t] - {stale};
      Rebound(r.byTag.at, r.digestToTag.at, t, m);
    } else {
      assert stale in b.digestToTag.at && b.digestToTag.at[stale] == t;
    }
  }

  lemma Rebound(tags: map<int, Meta>, digests: map<string, int>, t: int, m: Meta)
    requires Inverse(tags, digests) && t in tags && Truthy(tags[t].digest)
    requires Truthy(m.digest) && m.digest.value !in digests
    ensures Inverse(tags[t := m], digests[m.digest.value := t] - {tags[t].digest.value})
  {
  }

  /** The discipline: registrations carry no digest and every bind is clean. */
  predicate Clean(r: Registry, op: Op) {
    op.BindOp? && op.btag.Some? && Truthy(op.digest) ==> CleanBind(r, op.btag.value, op.digest.value)
  }

  ghost predicate CleanRun(r: Registry, ops: seq<Op>)
    decreases |ops|
  {
    ops != [] ==> Clean(r, ops[0]) && CleanRun(Step(r, ops[0]), ops[1..])
  }

  lemma CleanStepAgrees(r: Registry, op: Op)
    requires Agree(r) && Bounded(r) && Clean(r, op)
    ensures Agree(Step(r, op))
  {
    match op
    case Place(info) =>
      var t := NextTag(r.counter);
      var e := MetaAt(r, t);
      RegisterKeepsAgreement(r, t, e.(tag := t, info := e.info + info));
      EvictKeepsAgreement(r.(counter := t, byTag := Touch(r.byTag, t, e.(tag := t, info := e.info + info))));
    case Update(tag, info) =>
      var e := MetaAt(r, tag);
      RegisterKeepsAgreement(r, tag, e.(tag := tag, info := e.info + info));
      EvictKeepsAgreement(r.(byTag := Touch(r.byTag, tag, e.(tag := tag, info := e.info + info))));
    case BindOp(tag, digest) =>
      if tag.Some? && Truthy(digest) { BindKeepsAgreementIff(r, tag.value, digest.value); }
    case ForgetOp(tag, digest) =>
      ForgetKeepsAgreement(r, tag, digest);
  }

  lemma RegisterKeepsAgreement(r: Registry, t: int, m: Meta)
    requires Agree(r) && m.digest == MetaAt(r, t).digest
    ensures Agree(r.(byTag := Touch(r.byTag, t, m)))
  {
    InverseLink(r.byTag.at, r.digestToTag.at, t, m);
    if Truthy(m.digest) { assert r.digestToTag.at[m.digest.value := t] == r.digestToTag.at; }
  }

  lemma ForgetKeepsAgreement(r: Registry, tag: Option<int>, digest: Option<string>)
    requires Agree(r)
    ensures Agree(Forget(r, tag, digest))
  {
    if Truthy(digest) && digest.value in r.digestToTag.at {
      InverseUnlink(r.byTag.at, r.digestToTag.at, r.digestToTag.at[digest.value]);
    }
    var f := ForgetDigest(r, digest);
    if tag.Some? && tag.value in f.byTag.at {
      InverseUnlink(f.byTag.at, f.digestToTag.at, tag.value);
    }
  }

  /** In every clean run the two indexes are mutually inverse at the end, hence at every point. */
  lemma {:induction false} CleanRunsAgree(r: Registry, ops: seq<Op>)
    requires Agree(r) && Bounded(r) && CleanRun(r, ops)
    ensures Agree(Run(r, ops)) && Bounded(Run(r, ops))
    decreases |ops|
  {
    if ops != [] {
      StepBounds(r, ops[0]);
      CleanStepAgrees(r, ops[0]);
      CleanRunsAgree(Step(r, ops[0]), ops[1..]);
    }
  }

  // ----- lookups -----------------------------------------------------------

  /** With agreeing indexes the two lookups are one: a digest resolves exactly when some tag's entry
      carries it, and then to that very entry. */
  lemma LookupsAgree(r: Registry, d: string)
    requires Agree(r) && d != ""
    ensures ResolveDigest(r, Some(d)).Some? <==> exists t :: t in r.byTag.at && r.byTag.at[t].digest == Some(d)
    ensures forall t :: t in r.byTag.at && r.byTag.at[t].digest == Some(d) ==>
              ResolveDigest(r, Some(d)) == ResolveTag(r, Some(t))
  {
    hide OrderedDict.Valid;
    forall t | t in r.byTag.at && r.byTag.at[t].digest == Some(d)
      ensures d in r.digestToTag.at && r.digestToTag.at[d] == t
    {
      assert Truthy(r.byTag.at[t].digest);
    }
    if d in r.digestToTag.at {
      OwnerOf(r.byTag.at, r.digestToTag.at, d);
      var owner := r.digestToTag.at[d];
      assert owner in r.byTag.at && r.byTag.at[owner].digest == Some(d);
    }
  }
}
