/** The unique-ID tag allocator and the bounded tag <-> digest registry of engine orders. */
module OrderTags {
  import opened OrderedDicts

  const TAG_MODULO := 0x10_0000
  const MAX_ENTRIES: nat := 8192

  /** A registry entry: the reserved keys `tag` and `digest`, and every other metadata key. */
  datatype Meta = Meta(tag: int, digest: Option<string>, info: map<string, string>)

  /** The module's three globals. */
  datatype Registry = Registry(counter: nat, byTag: Dict<int, Meta>, digestToTag: Dict<string, int>)

  const CLEARED := Registry(0, Empty(), Empty())

  /** Python truthiness of an optional string. */
  predicate Truthy(s: Option<string>) { s.Some? && s.value != "" }

  // ----- specification of each operation -----------------------------------

  function NextTag(counter: nat): (t: nat)
    ensures 1 <= t < TAG_MODULO
  {
    var c := (counter + 1) % TAG_MODULO;
    if c == 0 then 1 else c
  }

  /** Drop the digest key of an entry that leaves the registry. */
  function Unlink(digests: Dict<string, int>, meta: Meta): Dict<string, int> {
    if Truthy(meta.digest) then digests.Remove(meta.digest.value) else digests
  }

  function Evict(r: Registry): Registry
    decreases |r.byTag.order|
  {
    if |r.byTag.order| > MAX_ENTRIES then
      Evict(r.(byTag := r.byTag.PopFirst(),
               digestToTag := Unlink(r.digestToTag, r.byTag.at[r.byTag.order[0]])))
    else
      r.(digestToTag := r.digestToTag.Trim(MAX_ENTRIES))
  }

  function MetaAt(r: Registry, tag: int): Meta {
    if tag in r.byTag.at then r.byTag.at[tag] else Meta(tag, None, map[])
  }

  function Register(r: Registry, tag: int, digest: Option<string>, info: map<string, string>): Registry {
    var e := MetaAt(r, tag);
    var e' := Meta(tag, if digest.Some? then digest else e.digest, e.info + info);
    Evict(r.(byTag := Touch(r.byTag, tag, e')))
  }

  function Link(r: Registry, tag: int, digest: string): Registry {
    r.(byTag := Touch(r.byTag, tag, MetaAt(r, tag).(digest := Some(digest))),
       digestToTag := Touch(r.digestToTag, digest, tag))
  }

  function Bind(r: Registry, tag: Option<int>, digest: Option<string>): Registry {
    if tag.None? || !Truthy(digest) then r else Evict(Link(r, tag.value, digest.value))
  }

  function ForgetDigest(r: Registry, digest: Option<string>): Registry {
    if Truthy(digest) && digest.value in r.digestToTag.at then
      r.(digestToTag := r.digestToTag.Remove(digest.value),
         byTag := r.byTag.Remove(r.digestToTag.at[digest.value]))
    else r
  }

  function ForgetTag(r: Registry, tag: Option<int>): Registry {
    if tag.Some? && tag.value in r.byTag.at then
      r.(byTag := r.byTag.Remove(tag.value),
         digestToTag := Unlink(r.digestToTag, r.byTag.at[tag.value]))
    else r
  }

  function Forget(r: Registry, tag: Option<int>, digest: Option<string>): Registry {
    ForgetTag(ForgetDigest(r, digest), tag)
  }

  function ResolveTag(r: Registry, tag: Option<int>): Option<Meta> {
    if tag.Some? && tag.value in r.byTag.at then Some(r.byTag.at[tag.value]) else None
  }

  function ResolveDigest(r: Registry, digest: Option<string>): Option<Meta> {
    if Truthy(digest) && digest.value in r.digestToTag.at
    then ResolveTag(r, Some(r.digestToTag.at[digest.value])) else None
  }

  // ----- the module as it mutates its globals ------------------------------

  class TagStore {
    var counter: nat
    var byTag: Dict<int, Meta>
    var digestToTag: Dict<string, int>

    ghost function State(): Registry reads this { Registry(counter, byTag, digestToTag) }

    constructor ()
      ensures State() == CLEARED
    {
      counter, byTag, digestToTag := 0, Empty(), Empty();
    }

    method AllocateTag() returns (tag: nat)
      modifies this
      ensures tag == NextTag(old(counter))
      ensures State() == old(State()).(counter := tag)
    {
      counter := (counter + 1) % TAG_MODULO;
      if counter == 0 { counter := 1; }
      tag := counter;
    }

    method EvictIfNeeded()
      modifies this
      ensures State() == Evict(old(State()))
    {
      hide OrderedDict.Valid, OrderedDict.PopFirst, OrderedDict.Remove;
      while |byTag.order| > MAX_ENTRIES
        invariant Evict(State()) == Evict(old(State()))
        decreases |byTag.order|
      {
        var oldMeta := byTag.at[byTag.order[0]];
        byTag := byTag.PopFirst();
        if Truthy(oldMeta.digest) { digestToTag := digestToTag.Remove(oldMeta.digest.value); }
      }
      while |digestToTag.order| > MAX_ENTRIES
        invariant |byTag.order| <= MAX_ENTRIES && Evict(State()) == Evict(old(State()))
        decreases |digestToTag.order|
      {
        digestToTag := digestToTag.PopFirst();
      }
    }

    method RegisterTag(tag: int, digest: Option<string>, info: map<string, string>)
      modifies this
      ensures State() == Register(old(State()), tag, digest, info)
    {
      var entry := if tag in byTag.at then byTag.at[tag] else Meta(tag, None, map[]);
      entry := entry.(info := entry.info + info, tag := tag);
      if digest.Some? { entry := entry.(digest := digest); }
      byTag := byTag.Put(tag, entry);
      byTag := byTag.MoveToEnd(tag);
      EvictIfNeeded();
    }

    method BindDigest(tag: Option<int>, digest: Option<string>)
      modifies this
      ensures State() == Bind(old(State()), tag, digest)
    {
      hide OrderedDict.Valid, OrderedDict.Put, OrderedDict.MoveToEnd, Evict;
      if tag.None? || !Truthy(digest) { return; }
      var t, d := tag.value, digest.value;
      var entry := if t in byTag.at then byTag.at[t] else Meta(t, None, map[]);
      byTag := byTag.Put(t, entry.(digest := Some(d)));
      digestToTag := digestToTag.Put(d, t);
      byTag := byTag.MoveToEnd(t);
      digestToTag := digestToTag.MoveToEnd(d);
      EvictIfNeeded();
    }

    method LookupTag(tag: Option<int>) returns (copy: Option<Meta>)
      ensures copy == ResolveTag(Registry(counter, byTag, digestToTag), tag)
    {
      if tag.None? || tag.value !in byTag.at { return None; }
      return Some(byTag.at[tag.value]);
    }

    method LookupDigest(digest: Option<string>) returns (copy: Option<Meta>)
      ensures copy == ResolveDigest(Registry(counter, byTag, digestToTag), digest)
    {
      if !Truthy(digest) || digest.value !in digestToTag.at { return None; }
      var tag := digestToTag.at[digest.value];
      if tag !in byTag.at { return None; }
      return Some(byTag.at[tag]);
    }

    method ForgetEntry(tag: Option<int>, digest: Option<string>)
      modifies this
      ensures State() == Forget(old(State()), tag, digest)
    {
      hide OrderedDict.Valid, OrderedDict.Remove;
      if Truthy(digest) && digest.value in digestToTag.at {
        var t := digestToTag.at[digest.value];
        digestToTag := digestToTag.Remove(digest.value);
        byTag := byTag.Remove(t);
      }
      if tag.Some? && tag.value in byTag.at {
        var entry := byTag.at[tag.value];
        byTag := byTag.Remove(tag.value);
        if Truthy(entry.digest) { digestToTag := digestToTag.Remove(entry.digest.value); }
      }
    }
  }
}
