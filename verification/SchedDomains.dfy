/**
  Repartitioning the scheduling domains: only domains that changed are torn
  down and built, and the result is that of tearing everything down and building
  everything anew.
 */
module SchedDomains {
  import opened Counting

  datatype Attr = Attr(relaxDomainLevel: int)

  const SD_ATTR_INIT := Attr(-1)

  /** What a CPU is attached to: the NULL domain, or the domain built for a mask. */
  datatype Attachment = Null | Domain(mask: set<nat>, attr: Attr, topology: nat)

  type Masks = seq<set<nat>>
  type Attrs = Option<seq<Attr>>

  /** A NULL attribute array stands for the default everywhere. */
  function AttrAt(attrs: Attrs, i: nat): Attr {
    if attrs.Some? && i < |attrs.value| then attrs.value[i] else SD_ATTR_INIT
  }

  /** detach_destroy_domains: the CPUs of `mask` go to the NULL domain. */
  function Detach(attach: map<nat, Attachment>, mask: set<nat>): map<nat, Attachment> {
    map c | c in attach :: if c in mask then Null else attach[c]
  }

  /** __build_sched_domains: the CPUs of `mask` are attached to the domain built for it. */
  function Build(attach: map<nat, Attachment>, mask: set<nat>, attr: Attr, topology: nat): map<nat, Attachment> {
    map c | c in attach :: if c in mask then Domain(mask, attr, topology) else attach[c]
  }

  // ----- from scratch

  function DetachAll(attach: map<nat, Attachment>, doms: Masks): (r: map<nat, Attachment>)
    ensures r.Keys == attach.Keys
  {
    if doms == [] then attach else Detach(DetachAll(attach, doms[..|doms| - 1]), doms[|doms| - 1])
  }

  function BuildAll(attach: map<nat, Attachment>, doms: Masks, attrs: Attrs, topology: nat): (r: map<nat, Attachment>)
    ensures r.Keys == attach.Keys
  {
    if doms == [] then attach
    else
      var i := |doms| - 1;
      Build(BuildAll(attach, doms[..i], attrs, topology), doms[i], AttrAt(attrs, i), topology)
  }

  predicate Disjoint(doms: Masks) {
    forall i, j :: 0 <= i < j < |doms| ==> doms[i] !! doms[j]
  }

  ghost predicate Covered(doms: Masks, c: nat) {
    exists i :: 0 <= i < |doms| && c in doms[i]
  }

  /** Every CPU is attached to the domain of its mask, and the others to none. */
  ghost predicate Consistent(attach: map<nat, Attachment>, doms: Masks, attrs: Attrs, topology: nat) {
    && Disjoint(doms)
    && (forall c, i :: c in attach && 0 <= i < |doms| && c in doms[i] ==> attach[c] == Domain(doms[i], AttrAt(attrs, i), topology))
    && (forall c :: c in attach && !Covered(doms, c) ==> attach[c] == Null)
  }

  lemma {:induction false} DetachAllIs(attach: map<nat, Attachment>, doms: Masks)
    ensures forall c :: c in attach ==> DetachAll(attach, doms)[c] == if Covered(doms, c) then Null else attach[c]
  {
    if doms != [] {
      var init := doms[..|doms| - 1];
      DetachAllIs(attach, init);
      forall c | c in attach
        ensures Covered(doms, c) <==> Covered(init, c) || c in doms[|doms| - 1]
      {
        if i :| 0 <= i < |doms| && c in doms[i] {
          assert i < |init| ==> c in init[i];
        }
        if i :| 0 <= i < |init| && c in init[i] {
          assert c in doms[i];
        }
      }
    }
  }

  lemma {:induction false} BuildAllIs(attach: map<nat, Attachment>, doms: Masks, attrs: Attrs, topology: nat)
    requires Disjoint(doms)
    ensures forall c, i :: c in attach && 0 <= i < |doms| && c in doms[i] ==>
      BuildAll(attach, doms, attrs, topology)[c] == Domain(doms[i], AttrAt(attrs, i), topology)
    ensures forall c :: c in attach && !Covered(doms, c) ==> BuildAll(attach, doms, attrs, topology)[c] == attach[c]
  {
    if doms != [] {
      var last := |doms| - 1;
      var init := doms[..last];
      assert Disjoint(init);
      BuildAllIs(attach, init, attrs, topology);
      forall c | c in attach && !Covered(doms, c)
        ensures !Covered(init, c) && c !in doms[last]
      {
        assert forall i :: 0 <= i < |init| ==> init[i] == doms[i];
      }
    }
  }

  /** Tearing all down and building all anew leaves the new domains and nothing else. */
  lemma RebuildIsConsistent(attach: map<nat, Attachment>, cur: Masks, curAttrs: Attrs, topology: nat,
                            doms: Masks, attrs: Attrs, newTopology: nat)
    requires Consistent(attach, cur, curAttrs, topology) && Disjoint(doms)
    ensures Consistent(BuildAll(DetachAll(attach, cur), doms, attrs, newTopology), doms, attrs, newTopology)
  {
    DetachAllIs(attach, cur);
    BuildAllIs(DetachAll(attach, cur), doms, attrs, newTopology);
  }

  /** Consistency leaves no choice. */
  lemma ConsistentUnique(a: map<nat, Attachment>, b: map<nat, Attachment>, doms: Masks, attrs: Attrs, topology: nat)
    requires a.Keys == b.Keys && Consistent(a, doms, attrs, topology) && Consistent(b, doms, attrs, topology)
    ensures a == b
  {
    forall c | c in a
      ensures a[c] == b[c]
    {
      if i :| 0 <= i < |doms| && c in doms[i] {
        assert a[c] == Domain(doms[i], AttrAt(attrs, i), topology);
      }
    }
  }

  /** A domain with this mask and these attributes is in the partition. */
  ghost predicate Listed(mask: set<nat>, attr: Attr, doms: Masks, attrs: Attrs) {
    exists j :: 0 <= j < |doms| && mask == doms[j] && attr == AttrAt(attrs, j)
  }

  /** The `i`-th domain of one partition is also in the other, with equal attributes. */
  ghost predicate Kept(doms: Masks, attrs: Attrs, i: nat, others: Masks, otherAttrs: Attrs) {
    i < |doms| && Listed(doms[i], AttrAt(attrs, i), others, otherAttrs)
  }

  /** `c` is in one of the first `n` domains that are not kept. */
  ghost predicate Changed(doms: Masks, attrs: Attrs, n: nat, others: Masks, otherAttrs: Attrs, c: nat) {
    exists i :: 0 <= i < |doms| && i < n && c in doms[i] && !Kept(doms, attrs, i, others, otherAttrs)
  }

  /** After the destroy loop: the CPUs of the domains not kept are detached, the others are as they were. */
  ghost predicate TornDown(was: map<nat, Attachment>, torn: map<nat, Attachment>, cur: Masks, curAttrs: Attrs, n: nat,
                           others: Masks, attrs: Attrs)
  {
    torn.Keys == was.Keys
    && forall c :: c in was ==> torn[c] == if Changed(cur, curAttrs, n, others, attrs, c) then Null else was[c]
  }

  /** After the build loop: the CPUs of the new domains that were not there are attached, the others are as they were. */
  ghost predicate BuiltUp(torn: map<nat, Attachment>, now: map<nat, Attachment>, doms: Masks, attrs: Attrs, n: nat,
                          kept: Masks, curAttrs: Attrs, arch: nat)
  {
    && now.Keys == torn.Keys
    && (forall c, k :: c in torn && 0 <= k < |doms| && k < n && c in doms[k] && !Kept(doms, attrs, k, kept, curAttrs) ==>
          now[c] == Domain(doms[k], AttrAt(attrs, k), arch))
    && (forall c :: c in torn && !Changed(doms, attrs, n, kept, curAttrs, c) ==> now[c] == torn[c])
  }

  lemma ChangedNext(doms: Masks, attrs: Attrs, n: nat, others: Masks, otherAttrs: Attrs, c: nat)
    requires n < |doms|
    ensures Changed(doms, attrs, n + 1, others, otherAttrs, c)
      <==> Changed(doms, attrs, n, others, otherAttrs, c) || (c in doms[n] && !Kept(doms, attrs, n, others, otherAttrs))
  {
    if i :| 0 <= i < |doms| && i < n + 1 && c in doms[i] && !Kept(doms, attrs, i, others, otherAttrs) {
      assert i == n || (i < n && c in doms[i]);
    }
  }

  /** The CPUs touched are those of the first `n` domains not kept, besides those of `before`. */
  ghost predicate TouchedOnly(touched: set<nat>, before: set<nat>, doms: Masks, attrs: Attrs, n: nat, others: Masks, otherAttrs: Attrs) {
    forall c :: c in touched <==> c in before || Changed(doms, attrs, n, others, otherAttrs, c)
  }

  lemma TouchedStep(touched: set<nat>, before: set<nat>, doms: Masks, attrs: Attrs, n: nat, others: Masks, otherAttrs: Attrs)
    requires n < |doms| && TouchedOnly(touched, before, doms, attrs, n, others, otherAttrs)
    ensures TouchedOnly(if Kept(doms, attrs, n, others, otherAttrs) then touched else touched + doms[n], before, doms, attrs, n + 1, others, otherAttrs)
  {
    forall c {
      ChangedNext(doms, attrs, n, others, otherAttrs, c);
    }
  }

  lemma TornStep(was: map<nat, Attachment>, torn: map<nat, Attachment>, cur: Masks, curAttrs: Attrs, n: nat,
                 others: Masks, attrs: Attrs)
    requires n < |cur| && TornDown(was, torn, cur, curAttrs, n, others, attrs)
    ensures TornDown(was, if Kept(cur, curAttrs, n, others, attrs) then torn else Detach(torn, cur[n]),
                     cur, curAttrs, n + 1, others, attrs)
  {
    forall c | c in was
      ensures Changed(cur, curAttrs, n + 1, others, attrs, c)
        <==> Changed(cur, curAttrs, n, others, attrs, c) || (c in cur[n] && !Kept(cur, curAttrs, n, others, attrs))
    {
      ChangedNext(cur, curAttrs, n, others, attrs, c);
    }
  }

  /** What building the `n`-th domain does to one CPU. */
  lemma BuiltStepAt(torn: map<nat, Attachment>, now: map<nat, Attachment>, doms: Masks, attrs: Attrs, n: nat,
                    kept: Masks, curAttrs: Attrs, arch: nat, c: nat)
    requires Disjoint(doms) && n < |doms| && BuiltUp(torn, now, doms, attrs, n, kept, curAttrs, arch) && c in torn
    ensures var now' := if Kept(doms, attrs, n, kept, curAttrs) then now else Build(now, doms[n], AttrAt(attrs, n), arch);
      && c in now'
      && (forall k :: 0 <= k < |doms| && k < n + 1 && c in doms[k] && !Kept(doms, attrs, k, kept, curAttrs) ==>
            now'[c] == Domain(doms[k], AttrAt(attrs, k), arch))
      && (!Changed(doms, attrs, n + 1, kept, curAttrs, c) ==> now'[c] == torn[c])
  {
    ChangedNext(doms, attrs, n, kept, curAttrs, c);
    if c in doms[n] {
      forall k | 0 <= k < n
        ensures c !in doms[k]
      {
        assert doms[k] !! doms[n];
      }
    }
  }

  lemma BuiltStep(torn: map<nat, Attachment>, now: map<nat, Attachment>, doms: Masks, attrs: Attrs, n: nat,
                  kept: Masks, curAttrs: Attrs, arch: nat)
    requires Disjoint(doms) && n < |doms| && BuiltUp(torn, now, doms, attrs, n, kept, curAttrs, arch)
    ensures BuiltUp(torn, if Kept(doms, attrs, n, kept, curAttrs) then now else Build(now, doms[n], AttrAt(attrs, n), arch),
                    doms, attrs, n + 1, kept, curAttrs, arch)
  {
    forall c | c in torn {
      BuiltStepAt(torn, now, doms, attrs, n, kept, curAttrs, arch, c);
    }
  }

  lemma OneDomain(doms: Masks, i: nat, j: nat, c: nat)
    requires Disjoint(doms) && i < |doms| && j < |doms| && c in doms[i] && c in doms[j]
    ensures i == j
  {
  }

  /** A CPU whose domain is kept is in no changed domain. */
  lemma KeptUnchanged(doms: Masks, attrs: Attrs, i: nat, others: Masks, otherAttrs: Attrs, c: nat)
    requires Disjoint(doms) && i < |doms| && c in doms[i] && Kept(doms, attrs, i, others, otherAttrs)
    ensures forall n :: !Changed(doms, attrs, n, others, otherAttrs, c)
  {
    forall n
      ensures !Changed(doms, attrs, n, others, otherAttrs, c)
    {
      if k :| 0 <= k < |doms| && k < n && c in doms[k] && !Kept(doms, attrs, k, others, otherAttrs) {
        OneDomain(doms, i, k, c);
      }
    }
  }

  lemma InNewDomain(was: map<nat, Attachment>, torn: map<nat, Attachment>, now: map<nat, Attachment>,
                    cur: Masks, curAttrs: Attrs, topology: nat, doms: Masks, attrs: Attrs, arch: nat, c: nat, i: nat)
    requires Consistent(was, cur, curAttrs, topology) && Disjoint(doms) && arch == topology
    requires TornDown(was, torn, cur, curAttrs, |cur|, doms, attrs)
    requires BuiltUp(torn, now, doms, attrs, |doms|, cur, curAttrs, arch)
    requires c in was && i < |doms| && c in doms[i] && Kept(doms, attrs, i, cur, curAttrs)
    ensures now[c] == Domain(doms[i], AttrAt(attrs, i), arch)
  {
    KeptUnchanged(doms, attrs, i, cur, curAttrs, c);
    var j :| 0 <= j < |cur| && doms[i] == cur[j] && AttrAt(attrs, i) == AttrAt(curAttrs, j);
    assert Kept(cur, curAttrs, j, doms, attrs);
    KeptUnchanged(cur, curAttrs, j, doms, attrs, c);
    assert now[c] == torn[c] == was[c];
  }

  lemma InNoNewDomain(was: map<nat, Attachment>, torn: map<nat, Attachment>, now: map<nat, Attachment>,
                      cur: Masks, curAttrs: Attrs, topology: nat, doms: Masks, attrs: Attrs, arch: nat,
                      others: Masks, kept: Masks, c: nat)
    requires Consistent(was, cur, curAttrs, topology)
    requires others == doms || others == []
    requires TornDown(was, torn, cur, curAttrs, |cur|, others, attrs)
    requires BuiltUp(torn, now, doms, attrs, |doms|, kept, curAttrs, arch)
    requires c in was && !Covered(doms, c)
    ensures now[c] == Null
  {
    assert !Changed(doms, attrs, |doms|, kept, curAttrs, c);
    if j :| 0 <= j < |cur| && c in cur[j] {
      assert forall k :: 0 <= k < |others| ==> cur[j] != others[k];
      assert Changed(cur, curAttrs, |cur|, others, attrs, c);
    }
  }

  /** The two loops together leave the new partition, provided both compare against everything or both against nothing. */
  lemma IncrementalIsConsistent(was: map<nat, Attachment>, torn: map<nat, Attachment>, now: map<nat, Attachment>,
                                cur: Masks, curAttrs: Attrs, topology: nat, doms: Masks, attrs: Attrs, arch: nat,
                                others: Masks, kept: Masks)
    requires Consistent(was, cur, curAttrs, topology) && Disjoint(doms)
    requires (others == doms && kept == cur && arch == topology) || (others == [] && kept == [])
    requires TornDown(was, torn, cur, curAttrs, |cur|, others, attrs)
    requires BuiltUp(torn, now, doms, attrs, |doms|, kept, curAttrs, arch)
    ensures Consistent(now, doms, attrs, arch)
  {
    forall c, i | c in now && 0 <= i < |doms| && c in doms[i]
      ensures now[c] == Domain(doms[i], AttrAt(attrs, i), arch)
    {
      if Kept(doms, attrs, i, kept, curAttrs) {
        InNewDomain(was, torn, now, cur, curAttrs, topology, doms, attrs, arch, c, i);
      }
    }
    forall c | c in now && !Covered(doms, c)
      ensures now[c] == Null
    {
      InNoNewDomain(was, torn, now, cur, curAttrs, topology, doms, attrs, arch, others, kept, c);
    }
  }

  /** So they leave what tearing everything down and building everything anew leaves. */
  lemma IncrementalIsRebuild(was: map<nat, Attachment>, torn: map<nat, Attachment>, now: map<nat, Attachment>,
                             cur: Masks, curAttrs: Attrs, topology: nat, doms: Masks, attrs: Attrs, arch: nat,
                             others: Masks, kept: Masks)
    requires Consistent(was, cur, curAttrs, topology) && Disjoint(doms)
    requires (others == doms && kept == cur && arch == topology) || (others == [] && kept == [])
    requires TornDown(was, torn, cur, curAttrs, |cur|, others, attrs)
    requires BuiltUp(torn, now, doms, attrs, |doms|, kept, curAttrs, arch)
    ensures Consistent(now, doms, attrs, arch)
    ensures now == BuildAll(DetachAll(was, cur), doms, attrs, arch)
  {
    IncrementalIsConsistent(was, torn, now, cur, curAttrs, topology, doms, attrs, arch, others, kept);
    RebuildIsConsistent(was, cur, curAttrs, topology, doms, attrs, arch);
    ConsistentUnique(now, BuildAll(DetachAll(was, cur), doms, attrs, arch), doms, attrs, arch);
  }

  /** Neither loop touches a CPU of a domain that is in both partitions. */
  lemma KeptUntouched(cur: Masks, curAttrs: Attrs, doms: Masks, attrs: Attrs, i: nat, c: nat)
    requires Disjoint(cur) && Disjoint(doms) && i < |cur| && c in cur[i] && Kept(cur, curAttrs, i, doms, attrs)
    ensures !Changed(cur, curAttrs, |cur|, doms, attrs, c) && !Changed(doms, attrs, |doms|, cur, curAttrs, c)
  {
    KeptUnchanged(cur, curAttrs, i, doms, attrs, c);
    var j :| 0 <= j < |doms| && cur[i] == doms[j] && AttrAt(curAttrs, i) == AttrAt(attrs, j);
    assert Kept(doms, attrs, j, cur, curAttrs);
    KeptUnchanged(doms, attrs, j, cur, curAttrs, c);
  }

  /** So what both loops have touched belongs to no domain kept. */
  lemma TouchedNotKept(once: set<nat>, touched: set<nat>, cur: Masks, curAttrs: Attrs, doms: Masks, attrs: Attrs)
    requires Disjoint(cur) && Disjoint(doms)
    requires TouchedOnly(once, {}, cur, curAttrs, |cur|, doms, attrs)
    requires TouchedOnly(touched, once, doms, attrs, |doms|, cur, curAttrs)
    ensures forall i, c :: 0 <= i < |cur| && c in cur[i] && c in touched ==> !Kept(cur, curAttrs, i, doms, attrs)
  {
    forall i, c | 0 <= i < |cur| && c in cur[i] && Kept(cur, curAttrs, i, doms, attrs)
      ensures c !in touched
    {
      KeptUntouched(cur, curAttrs, doms, attrs, i, c);
    }
  }

  // ----- attributes, from the arrays themselves

  /** Every CPU is attached to the domain of its mask, with the array's entry or -1 if there is no array; the others to none. */
  ghost predicate AttachedByEntries(attach: map<nat, Attachment>, doms: Masks, attrs: Attrs, topology: nat) {
    && (forall i, c :: 0 <= i < |doms| && c in doms[i] && c in attach ==>
          match attrs
          case None => attach[c] == Domain(doms[i], Attr(-1), topology)
          case Some(entries) => i < |entries| ==> attach[c] == Domain(doms[i], entries[i], topology))
    && (forall c :: c in attach && !Covered(doms, c) ==> attach[c] == Null)
  }

  lemma ByEntries(attach: map<nat, Attachment>, doms: Masks, attrs: Attrs, topology: nat)
    requires Consistent(attach, doms, attrs, topology)
    ensures AttachedByEntries(attach, doms, attrs, topology)
  {
  }

  predicate HasEntry(attrs: Attrs, i: nat, attr: Attr) {
    match attrs
    case None => attr == Attr(-1)
    case Some(entries) => i < |entries| && attr == entries[i]
  }

  /** A mask that stays but gets another entry is torn down and built again. */
  ghost predicate NewEntriesTouched(cur: Masks, curAttrs: Attrs, doms: Masks, attrs: Attrs, touched: set<nat>) {
    forall i, j, a, b ::
      (0 <= i < |cur| && 0 <= j < |doms| && cur[i] == doms[j] && HasEntry(curAttrs, i, a) && HasEntry(attrs, j, b) && a != b)
      ==> doms[j] <= touched
  }

  /** The CPUs of every new domain that was not there before have been touched; of all of them, if nothing is compared. */
  ghost predicate AllChangedTouched(cur: Masks, curAttrs: Attrs, doms: Masks, attrs: Attrs, touched: set<nat>, compared: bool) {
    forall j :: 0 <= j < |doms| && (compared ==> !Kept(doms, attrs, j, cur, curAttrs)) ==> doms[j] <= touched
  }

  lemma ChangedTouched(once: set<nat>, touched: set<nat>, cur: Masks, curAttrs: Attrs, doms: Masks, attrs: Attrs, compared: bool)
    requires TouchedOnly(touched, once, doms, attrs, |doms|, if compared then cur else [], curAttrs)
    ensures AllChangedTouched(cur, curAttrs, doms, attrs, touched, compared)
  {
    var others := if compared then cur else [];
    forall j, c | 0 <= j < |doms| && (compared ==> !Kept(doms, attrs, j, cur, curAttrs)) && c in doms[j]
      ensures c in touched
    {
      assert !Kept(doms, attrs, j, others, curAttrs);
      assert Changed(doms, attrs, |doms|, others, curAttrs, c);
    }
  }

  lemma EntriesTouched(cur: Masks, curAttrs: Attrs, doms: Masks, attrs: Attrs, touched: set<nat>, compared: bool)
    requires Disjoint(cur) && AllChangedTouched(cur, curAttrs, doms, attrs, touched, compared)
    ensures NewEntriesTouched(cur, curAttrs, doms, attrs, touched)
  {
    forall i, j, a, b | 0 <= i < |cur| && 0 <= j < |doms| && cur[i] == doms[j] && HasEntry(curAttrs, i, a) && HasEntry(attrs, j, b) && a != b
      ensures doms[j] <= touched
    {
      if c :| c in doms[j] {
        NotKept(cur, curAttrs, doms, attrs, i, j, c);
      }
    }
  }

  lemma NotKept(cur: Masks, curAttrs: Attrs, doms: Masks, attrs: Attrs, i: nat, j: nat, c: nat)
    requires Disjoint(cur) && i < |cur| && j < |doms| && cur[i] == doms[j] && c in doms[j]
    requires AttrAt(curAttrs, i) != AttrAt(attrs, j)
    ensures !Kept(doms, attrs, j, cur, curAttrs)
  {
    if k :| 0 <= k < |cur| && doms[j] == cur[k] && AttrAt(attrs, j) == AttrAt(curAttrs, k) {
      OneDomain(cur, i, k, c);
    }
  }

  /** What the two loops leave, when they compare old and new domains and when they compare nothing. */
  lemma BothLoops(was: map<nat, Attachment>, torn: map<nat, Attachment>, now: map<nat, Attachment>,
                  cur: Masks, curAttrs: Attrs, topology: nat, doms: Masks, attrs: Attrs, arch: nat,
                  compared: bool, once: set<nat>, touched: set<nat>)
    requires Consistent(was, cur, curAttrs, topology) && Disjoint(doms) && (compared ==> arch == topology)
    requires TornDown(was, torn, cur, curAttrs, |cur|, if compared then doms else [], attrs)
    requires TouchedOnly(once, {}, cur, curAttrs, |cur|, if compared then doms else [], attrs)
    requires BuiltUp(torn, now, doms, attrs, |doms|, if compared then cur else [], curAttrs, arch)
    requires TouchedOnly(touched, once, doms, attrs, |doms|, if compared then cur else [], curAttrs)
    ensures Consistent(now, doms, attrs, arch)
    ensures now == BuildAll(DetachAll(was, cur), doms, attrs, arch)
    ensures compared ==> forall i, c :: 0 <= i < |cur| && c in cur[i] && c in touched ==> !Kept(cur, curAttrs, i, doms, attrs)
  {
    if compared {
      IncrementalIsRebuild(was, torn, now, cur, curAttrs, topology, doms, attrs, arch, doms, cur);
      TouchedNotKept(once, touched, cur, curAttrs, doms, attrs);
    } else {
      IncrementalIsRebuild(was, torn, now, cur, curAttrs, topology, doms, attrs, arch, [], []);
    }
  }

  class Domains {
    var domsCur: Masks
    var dattrCur: Attrs
    var attach: map<nat, Attachment>
    var topology: nat
    var touched: set<nat>                    // CPUs attached or detached by the last repartitioning

    ghost predicate Valid()
      reads this
    {
      Consistent(attach, domsCur, dattrCur, topology)
    }

    constructor (cpus: set<nat>)
      ensures Valid() && domsCur == [] && attach.Keys == cpus
    {
      domsCur, dattrCur, topology, touched := [], None, 0, {};
      attach := map c | c in cpus :: Null;
    }

    /** The inner loops: whether `mask` with its attributes is among the first `n` of `doms`. */
    method Match(mask: set<nat>, attr: Attr, doms: Masks, attrs: Attrs, newTopology: bool) returns (found: bool)
      ensures found <==> Listed(mask, attr, if newTopology then [] else doms, attrs)
    {
      var j := 0;
      while j < |doms| && !newTopology
        invariant 0 <= j <= |doms|
        invariant forall k :: 0 <= k < j ==> !(mask == doms[k] && attr == AttrAt(attrs, k))
      {
        if mask == doms[j] && attr == AttrAt(attrs, j) {
          return true;
        }
        j := j + 1;
      }
      found := false;
    }

    /** The destroy loop. */
    method DestroyDeleted(given: Masks, dattrNew: Attrs, newTopology: bool)
      modifies `attach, `touched
      ensures TornDown(old(attach), attach, domsCur, dattrCur, |domsCur|, if newTopology then [] else given, dattrNew)
      ensures TouchedOnly(touched, {}, domsCur, dattrCur, |domsCur|, if newTopology then [] else given, dattrNew)
    {
      ghost var others := if newTopology then [] else given;
      touched := {};
      var i: nat := 0;
      while i < |domsCur|
        invariant i <= |domsCur|
        invariant TornDown(old(attach), attach, domsCur, dattrCur, i, others, dattrNew)
        invariant TouchedOnly(touched, {}, domsCur, dattrCur, i, others, dattrNew)
      {
        var found := Match(domsCur[i], AttrAt(dattrCur, i), given, dattrNew, newTopology);
        assert found <==> Kept(domsCur, dattrCur, i, others, dattrNew);
        TornStep(old(attach), attach, domsCur, dattrCur, i, others, dattrNew);
        TouchedStep(touched, {}, domsCur, dattrCur, i, others, dattrNew);
        if !found {
          attach := Detach(attach, domsCur[i]);
          touched := touched + domsCur[i];
        }
        i := i + 1;
      }
    }

    /** The build loop. */
    method BuildNew(next: Masks, dattrNew: Attrs, newTopology: bool, arch: nat)
      requires Disjoint(next)
      modifies `attach, `touched
      ensures BuiltUp(old(attach), attach, next, dattrNew, |next|, if newTopology then [] else domsCur, dattrCur, arch)
      ensures TouchedOnly(touched, old(touched), next, dattrNew, |next|, if newTopology then [] else domsCur, dattrCur)
    {
      ghost var kept := if newTopology then [] else domsCur;
      var i: nat := 0;
      while i < |next|
        invariant i <= |next|
        invariant BuiltUp(old(attach), attach, next, dattrNew, i, kept, dattrCur, arch)
        invariant TouchedOnly(touched, old(touched), next, dattrNew, i, kept, dattrCur)
      {
        var found := Match(next[i], AttrAt(dattrNew, i), domsCur, dattrCur, newTopology);
        assert found <==> Kept(next, dattrNew, i, kept, dattrCur);
        BuiltStep(old(attach), attach, next, dattrNew, i, kept, dattrCur, arch);
        TouchedStep(touched, old(touched), next, dattrNew, i, kept, dattrCur);
        if !found {
          attach := Build(attach, next[i], AttrAt(dattrNew, i), arch);
          touched := touched + next[i];
        }
        i := i + 1;
      }
    }

    /** The two loops; when no domains are given, the first compares with nothing, and so does the second. */
    method DestroyAndBuild(given: bool, next: Masks, dattrNew: Attrs, newTopology: bool, arch: nat)
      requires Valid() && Disjoint(next) && newTopology == (arch != topology)
      modifies `attach, `touched, `domsCur
      ensures Consistent(attach, next, dattrNew, arch)
      ensures attach == BuildAll(DetachAll(old(attach), old(domsCur)), next, dattrNew, arch)
      ensures given && !newTopology ==>
        forall i, c :: 0 <= i < |old(domsCur)| && c in old(domsCur)[i] && c in touched ==> !Kept(old(domsCur), dattrCur, i, next, dattrNew)
      ensures AllChangedTouched(old(domsCur), dattrCur, next, dattrNew, touched, given && !newTopology)
      ensures AttachedByEntries(attach, next, dattrNew, arch) && NewEntriesTouched(old(domsCur), dattrCur, next, dattrNew, touched)
    {
      ghost var cur, was := domsCur, attach;
      ghost var compared := given && !newTopology;
      DestroyDeleted(if given then next else [], dattrNew, newTopology);
      ghost var torn, once := attach, touched;
      if !given {
        domsCur := [];
      }
      BuildNew(next, dattrNew, newTopology, arch);
      BothLoops(was, torn, attach, cur, dattrCur, topology, next, dattrNew, arch, compared, once, touched);
      ChangedTouched(once, touched, cur, dattrCur, next, dattrNew, compared);
      EntriesTouched(cur, dattrCur, next, dattrNew, touched, compared);
      ByEntries(attach, next, dattrNew, arch);
    }

    /**
      `domsNew` None with `ndomsNew` 1 asks for the single fallback domain, with 0 for none at all.
      `arch` is the topology the architecture reports; a new one forces everything to be rebuilt.
     */
    method PartitionSchedDomains(ndomsNew: nat, domsNew: Option<Masks>, dattrNew: Attrs, arch: nat,
                                 active: set<nat>, isolated: set<nat>)
      requires Valid()
      requires domsNew.Some? ==> |domsNew.value| == ndomsNew && Disjoint(domsNew.value)
      requires domsNew.None? ==> ndomsNew <= 1
      modifies this
      ensures Valid() && topology == arch && dattrCur == dattrNew
      ensures domsCur == if domsNew.Some? then domsNew.value else if ndomsNew == 1 then [active - isolated] else []
      ensures attach == BuildAll(DetachAll(old(attach), old(domsCur)), domsCur, dattrCur, topology)
      ensures domsNew.Some? && arch == old(topology) ==>
        forall i, c :: 0 <= i < |old(domsCur)| && c in old(domsCur)[i] && c in touched
          ==> !Kept(old(domsCur), old(dattrCur), i, domsCur, dattrCur)
      ensures AttachedByEntries(attach, domsCur, dattrNew, arch)
      ensures AllChangedTouched(old(domsCur), old(dattrCur), domsCur, dattrNew, touched, domsNew.Some? && arch == old(topology))
      ensures NewEntriesTouched(old(domsCur), old(dattrCur), domsCur, dattrNew, touched)
    {
      var newTopology := arch != topology;
      var next := if domsNew.Some? then domsNew.value else if ndomsNew == 1 then [active - isolated] else [];
      DestroyAndBuild(domsNew.Some?, next, dattrNew, newTopology, arch);
      domsCur, dattrCur, topology := next, dattrNew, arch;
    }
  }
}
