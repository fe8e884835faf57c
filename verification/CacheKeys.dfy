/** Cache keys: nine positional, colon-separated segments. */
module CacheKeys {
  import opened Options
  import opened Text

  datatype CacheKey = CacheKey(
    environment: string, app: string, moduleName: string, entity: string, version: string,
    tenant: Option<string>, locale: Option<string>, feature: Option<string>, discriminator: string)
  {
    /** The eight segments in front of the discriminator. */
    function Leading(): (r: seq<string>)
      ensures |r| == 8
    {
      [environment, app, moduleName, entity, version, tenant.GetOr(""), locale.GetOr(""), feature.GetOr("")]
    }

    function Segments(): (r: seq<string>)
      ensures |r| == 9 && r[..8] == Leading() && r[8] == discriminator
    {
      Leading() + [discriminator]
    }

    function Render(): string {
      Joined(Segments())
    }

    predicate LeadingColonFree() {
      forall i :: 0 <= i < 8 ==> ColonFree(Leading()[i])
    }
  }

  datatype Partitions = Partitions(tenant: Option<string>, locale: Option<string>, feature: Option<string>)

  const NoPartitions := Partitions(None, None, None)

  function LowercaseOption(o: Option<string>): Option<string> {
    if o.Some? then Some(Lowercase(o.value)) else None
  }

  datatype CacheKeyComposer = CacheKeyComposer(app: string, environment: string)
  {
    /** A key in which every segment is lowercased except the discriminator. */
    function ComposePartitioned(moduleName: string, entity: string, version: string, discriminator: string,
                                partitions: Partitions): CacheKey
    {
      CacheKey(environment, app, Lowercase(moduleName), Lowercase(entity), Lowercase(version),
               LowercaseOption(partitions.tenant), LowercaseOption(partitions.locale),
               LowercaseOption(partitions.feature),
               discriminator)
    }

    function Compose(moduleName: string, entity: string, version: string, discriminator: string): CacheKey {
      ComposePartitioned(moduleName, entity, version, discriminator, NoPartitions)
    }
  }

  /**
   Two keys whose leading segments are free of colons render alike exactly when they agree
   segment by segment, an absent partition counting as an empty one.
   */
  lemma RenderInjective(a: CacheKey, b: CacheKey)
    requires a.LeadingColonFree() && b.LeadingColonFree()
    ensures a.Render() == b.Render() <==> a.Leading() == b.Leading() && a.discriminator == b.discriminator
  {
    var s, t := a.Segments(), b.Segments();
    if a.Render() == b.Render() {
      forall i | 0 <= i < 8 ensures ColonFree(s[i]) && ColonFree(t[i]) {
        assert s[i] == a.Leading()[i] && t[i] == b.Leading()[i];
      }
      JoinedInjective(s, t);
      assert s[..8] == a.Leading() && t[..8] == b.Leading() && s[8] == a.discriminator && t[8] == b.discriminator;
    }
  }

  /**
   Any two keys, colons or not, render alike exactly when their texts split at the first eight colons
   into the same.
   */
  lemma RenderAlike(a: CacheKey, b: CacheKey)
    ensures a.Render() == b.Render() <==> Resplit(a.Segments()) == Resplit(b.Segments())
  {
    JoinedAlike(a.Segments(), b.Segments());
  }

  /** The key that splits another's text at its first eight colons. */
  function Split(a: CacheKey): CacheKey {
    var s := Resplit(a.Segments());
    CacheKey(s[0], s[1], s[2], s[3], s[4], Some(s[5]), Some(s[6]), Some(s[7]), s[8])
  }

  lemma SplitRendersAlike(a: CacheKey)
    ensures Split(a).Render() == a.Render() && Split(a).LeadingColonFree()
  {
    var s := Resplit(a.Segments());
    assert Split(a).Segments() == s;
    assert forall i :: 0 <= i < 8 ==> Split(a).Leading()[i] == s[i];
    ResplitKeepsText(a.Segments());
  }

  /**
   The exact condition: a key's text is also that of a key with other leading segments, these free of
   colons, exactly when one of its own leading segments has a colon.
   */
  lemma CollidesIff(a: CacheKey)
    ensures (exists b: CacheKey :: b.LeadingColonFree() && b.Render() == a.Render() && b.Leading() != a.Leading())
       <==> !a.LeadingColonFree()
  {
    if a.LeadingColonFree() {
      forall b: CacheKey | b.LeadingColonFree() && b.Render() == a.Render() ensures b.Leading() == a.Leading() {
        RenderInjective(a, b);
      }
    } else {
      SplitRendersAlike(a);
      assert Split(a).Leading() != a.Leading();
    }
  }

  /**
   Keys one composer makes for one module collide only for equal entities, case aside, and equal
   discriminators, whatever the host's own two segments hold.
   */
  lemma ComposedInjective(keys: CacheKeyComposer, moduleName: string, entity: string, entity': string,
                          version: string, d: string, d': string)
    requires ColonFree(entity) && ColonFree(entity')
    ensures keys.Compose(moduleName, entity, version, d).Render()
            == keys.Compose(moduleName, entity', version, d').Render()
       <==> Lowercase(entity) == Lowercase(entity') && d == d'
  {
    LowercaseKeepsColonFree(entity);
    LowercaseKeepsColonFree(entity');
    var a, b := keys.Compose(moduleName, entity, version, d), keys.Compose(moduleName, entity', version, d');
    var s, t := a.Leading() + [d], b.Leading() + [d'];
    if a.Render() == b.Render() {
      JoinedInjective(s, t);
      assert s[3] == Lowercase(entity) && t[3] == Lowercase(entity') && s[8] == d && t[8] == d';
    }
  }

  /** A partition's segment: nothing for an absent one. */
  function PartitionText(partition: Option<string>): string {
    if partition.Some? then Lowercase(partition.value) else ""
  }

  /**
   The text of a composed key: environment, app, module, entity, version, the three partitions and the
   discriminator, lowercased from the module to the partitions, with a colon between each and the next.
   */
  lemma ComposedText(
    keys: CacheKeyComposer, moduleName: string, entity: string, version: string, d: string, p: Partitions)
    ensures keys.ComposePartitioned(moduleName, entity, version, d, p).Render()
         == keys.environment + ":" + (keys.app + ":" + (Lowercase(moduleName) + ":" + (Lowercase(entity) + ":"
            + (Lowercase(version) + ":" + (PartitionText(p.tenant) + ":" + (PartitionText(p.locale) + ":"
            + (PartitionText(p.feature) + ":" + d)))))))
    ensures keys.Compose(moduleName, entity, version, d)
         == keys.ComposePartitioned(moduleName, entity, version, d, Partitions(None, None, None))
  {
    var t, l, f := PartitionText(p.tenant), PartitionText(p.locale), PartitionText(p.feature);
    var m, e, v := Lowercase(moduleName), Lowercase(entity), Lowercase(version);
    var key := keys.ComposePartitioned(moduleName, entity, version, d, p);
    assert key.Segments() == [keys.environment] + ([keys.app] + ([m] + ([e] + ([v] + ([t] + ([l] + ([f] + [d])))))));
    JoinedCons(f, [d]);
    JoinedCons(l, [f] + [d]);
    JoinedCons(t, [l] + ([f] + [d]));
    JoinedCons(v, [t] + ([l] + ([f] + [d])));
    JoinedCons(e, [v] + ([t] + ([l] + ([f] + [d]))));
    JoinedCons(m, [e] + ([v] + ([t] + ([l] + ([f] + [d])))));
    JoinedCons(keys.app, [m] + ([e] + ([v] + ([t] + ([l] + ([f] + [d]))))));
    JoinedCons(keys.environment, [keys.app] + ([m] + ([e] + ([v] + ([t] + ([l] + ([f] + [d])))))));
  }

  function Discriminator(prefix: string, id: int): string {
    prefix + ":" + Decimal(id)
  }

  lemma DiscriminatorInjective(prefix: string, id: int, prefix': string, id': int)
    requires ColonFree(prefix) && ColonFree(prefix') && Discriminator(prefix, id) == Discriminator(prefix', id')
    ensures prefix == prefix' && id == id'
  {
    FirstColonSplits(prefix, Decimal(id), prefix', Decimal(id'));
    DecimalInjective(id, id');
  }
}
