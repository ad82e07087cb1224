/** The follower channel reconciler: it replaces the anchor peers and revocation list of its own organization. */
module Follower {
  import opened Wrappers
  import opened HostPort
  import opened ChannelConfig
  import opened ChannelUpdate
  import opened ConfigTx
  import opened MainChannel

  /** `revocations` holds the parsed lists, `None` where the text does not parse. */
  datatype FollowerSpec = FollowerSpec(mspId: string, anchors: seq<Address>, revocations: seq<Option<string>>)

  function AddAnchors(cur: seq<Address>, anchors: seq<Address>): seq<Address> {
    if |anchors| == 0 then cur else With(AddAnchors(cur, anchors[..|anchors| - 1]), anchors[|anchors| - 1])
  }

  /** Exactly the spec's anchor peers, each once. */
  lemma {:induction false} AnchorsExact(cur: seq<Address>, anchors: seq<Address>)
    ensures forall a :: a in AddAnchors(cur, anchors) <==> a in cur || a in anchors
    ensures (forall i, j :: 0 <= i < j < |cur| ==> cur[i] != cur[j]) ==>
              forall i, j :: 0 <= i < j < |AddAnchors(cur, anchors)| ==>
                AddAnchors(cur, anchors)[i] != AddAnchors(cur, anchors)[j]
  {
    if |anchors| > 0 {
      assert anchors == anchors[..|anchors| - 1] + [anchors[|anchors| - 1]];
      AnchorsExact(cur, anchors[..|anchors| - 1]);
    }
  }

  predicate Parsed(revocations: seq<Option<string>>) {
    forall r :: r in revocations ==> r.Some?
  }

  function Texts(revocations: seq<Option<string>>): seq<string>
    requires Parsed(revocations)
  {
    seq(|revocations|, i requires 0 <= i < |revocations| => revocations[i].value)
  }

  /** The configuration a follower reconcile submits, or `None` when it stops before. */
  function FollowerAfter(c: Channel, f: FollowerSpec): Option<Channel> {
    if InMaintenance(c) || f.mspId !in c.application.orgs || !Parsed(f.revocations) then None
    else
      var o := c.application.orgs[f.mspId];
      var updated := o.(anchors := AddAnchors([], f.anchors), msp := o.msp.(revocations := Texts(f.revocations)));
      Some(c.(application := c.application.(orgs := c.application.orgs[f.mspId := updated])))
  }

  function WithoutAll(s: seq<Address>, gone: seq<Address>): seq<Address> {
    if |gone| == 0 then s else Without(WithoutAll(s, gone[..|gone| - 1]), gone[|gone| - 1])
  }

  lemma {:induction false} WithoutAllMembers(s: seq<Address>, gone: seq<Address>)
    ensures forall a :: a in WithoutAll(s, gone) <==> a in s && a !in gone
  {
    if |gone| > 0 {
      assert gone == gone[..|gone| - 1] + [gone[|gone| - 1]];
      WithoutAllMembers(s, gone[..|gone| - 1]);
      WithoutMembers(WithoutAll(s, gone[..|gone| - 1]), gone[|gone| - 1]);
    }
  }

  /** Removing every anchor peer that was read leaves none. */
  lemma ClearsAnchors(s: seq<Address>)
    ensures WithoutAll(s, s) == []
  {
    WithoutAllMembers(s, s);
    if |WithoutAll(s, s)| > 0 {
      assert WithoutAll(s, s)[0] in WithoutAll(s, s);
    }
  }

  /** The application group with other anchor peers for one of its organizations. */
  function WithAnchors(a: ApplicationGroup, name: string, anchors: seq<Address>): ApplicationGroup
    requires name in a.orgs
  {
    a.(orgs := a.orgs[name := a.orgs[name].(anchors := anchors)])
  }

  lemma AnchorsTwice(a: ApplicationGroup, name: string, first: seq<Address>, second: seq<Address>)
    requires name in a.orgs
    ensures WithAnchors(WithAnchors(a, name, first), name, second) == WithAnchors(a, name, second)
    ensures WithAnchors(a, name, a.orgs[name].anchors) == a
  {
    assert a.orgs[name := a.orgs[name]] == a.orgs;
  }

  method ReplaceAnchors(tx: Transaction, name: string, wanted: seq<Address>)
    requires name in tx.application.orgs
    modifies tx`application
    ensures tx.application == WithAnchors(old(tx.application), name, AddAnchors([], wanted))
  {
    var current := tx.application.orgs[name].anchors;
    AnchorsTwice(tx.application, name, current, current);
    for i := 0 to |current|
      invariant tx.application == WithAnchors(old(tx.application), name, WithoutAll(current, current[..i]))
    {
      assert current[..i + 1][..i] == current[..i];
      ghost var before := WithoutAll(current, current[..i]);
      tx.RemoveAnchorPeer(name, current[i]);
      AnchorsTwice(old(tx.application), name, before, Without(before, current[i]));
    }
    assert current[..|current|] == current;
    ClearsAnchors(current);
    for i := 0 to |wanted|
      invariant tx.application == WithAnchors(old(tx.application), name, AddAnchors([], wanted[..i]))
    {
      assert wanted[..i + 1][..i] == wanted[..i];
      ghost var before := AddAnchors([], wanted[..i]);
      tx.AddAnchorPeer(name, wanted[i]);
      AnchorsTwice(old(tx.application), name, before, With(before, wanted[i]));
    }
    assert wanted[..|wanted|] == wanted;
  }

  /** Out of maintenance, with the organization on the channel and every revocation list readable. */
  ghost predicate Allowed(c: Channel, f: FollowerSpec) {
    && c.orderer.state == Normal && f.mspId in c.application.orgs
    && forall k :: 0 <= k < |f.revocations| ==> f.revocations[k].Some?
  }

  /**
   * The organization's anchor peers are the wanted ones in the order they are first named, its revocations are the
   * wanted ones, and nothing else of it or of the channel has changed.
   */
  ghost predicate FollowerDelivered(c: Channel, f: FollowerSpec, d: Channel)
    requires f.mspId in c.application.orgs
  {
    && f.mspId in d.application.orgs
    && var o := c.application.orgs[f.mspId]; var p := d.application.orgs[f.mspId];
       && d == c.(application := c.application.(orgs := c.application.orgs[f.mspId := p]))
       && p == o.(anchors := p.anchors, msp := o.msp.(revocations := p.msp.revocations))
       && FirstOccurrences(f.anchors, p.anchors)
       && |p.msp.revocations| == |f.revocations|
       && forall k :: 0 <= k < |f.revocations| ==> f.revocations[k] == Some(p.msp.revocations[k])
  }

  /** `s` holds each element of `all` once, in the order of their first occurrences. */
  ghost predicate FirstOccurrences(all: seq<Address>, s: seq<Address>) {
    (forall a :: a in s <==> a in all) && exists at :: FirstAt(all, s, at)
  }

  /** `at` are the places where the elements of `s` first occur in `all`. */
  ghost predicate FirstAt(all: seq<Address>, s: seq<Address>, at: seq<nat>) {
    && |at| == |s|
    && (forall i :: 0 <= i < |s| ==> at[i] < |all| && all[at[i]] == s[i] && s[i] !in all[..at[i]])
    && (forall i, j :: 0 <= i < j < |s| ==> at[i] < at[j])
  }

  lemma {:induction false} AnchorsFirstAt(all: seq<Address>) returns (at: seq<nat>)
    ensures FirstAt(all, AddAnchors([], all), at)
  {
    if |all| == 0 {
      return [];
    }
    var front := all[..|all| - 1];
    var last := all[|all| - 1];
    at := AnchorsFirstAt(front);
    AnchorsExact([], front);
    assert all == front + [last];
    FirstAtLonger(front, AddAnchors([], front), at, last);
    if last !in AddAnchors([], front) {
      at := at + [|front|];
    }
  }

  lemma FirstAtLonger(all: seq<Address>, s: seq<Address>, at: seq<nat>, last: Address)
    requires FirstAt(all, s, at)
    ensures FirstAt(all + [last], s, at)
    ensures last !in all ==> FirstAt(all + [last], s + [last], at + [|all|])
  {
    var more := all + [last];
    assert more[..|all|] == all;
    forall i | 0 <= i < |s| ensures at[i] < |more| && more[at[i]] == s[i] && s[i] !in more[..at[i]] {
      assert more[..at[i]] == all[..at[i]];
    }
  }

  lemma AnchorsFirst(all: seq<Address>)
    ensures FirstOccurrences(all, AddAnchors([], all))
  {
    AnchorsExact([], all);
    var at := AnchorsFirstAt(all);
  }

  lemma FollowerDelivers(c: Channel, f: FollowerSpec)
    requires FollowerAfter(c, f).Some?
    ensures Allowed(c, f) && FollowerDelivered(c, f, FollowerAfter(c, f).value)
  {
    AnchorsFirst(f.anchors);
  }

  lemma AllowedIff(c: Channel, f: FollowerSpec)
    ensures FollowerAfter(c, f).Some? <==> Allowed(c, f)
  {
    if Allowed(c, f) {
      assert forall r :: r in f.revocations ==> r.Some?;
    }
  }

  /** The guards and the edits of the transaction; `false` when one of them stops it. */
  method EditOwnOrganization(tx: Transaction, f: FollowerSpec) returns (edited: bool)
    modifies tx
    ensures match FollowerAfter(old(tx.UpdatedConfig()), f)
            case None => !edited
            case Some(c) => edited && tx.UpdatedConfig() == c
  {
    if tx.orderer.state == Maintenance {
      return false;
    }
    if f.mspId !in tx.application.orgs {
      return false;
    }
    ReplaceAnchors(tx, f.mspId, f.anchors);
    var revocationList: seq<string> := [];
    for i := 0 to |f.revocations|
      invariant Parsed(f.revocations[..i]) && revocationList == Texts(f.revocations[..i])
    {
      if f.revocations[i].None? {
        assert f.revocations[i] in f.revocations;
        return false;
      }
      revocationList := revocationList + [f.revocations[i].value];
    }
    assert f.revocations[..|f.revocations|] == f.revocations;
    var org := tx.application.orgs[f.mspId];
    org := org.(msp := org.msp.(revocations := revocationList));
    tx.SetApplicationOrganization(f.mspId, org);
    return true;
  }

  /**
   * The channel part of `Reconcile`; `false` stands for each of its failure exits. `approved` is whether the
   * ordering service takes an update that is computed from the current version.
   */
  method ReconcileFollower(ledger: Ledger, f: FollowerSpec, approved: bool) returns (ok: bool)
    modifies ledger
    ensures match FollowerAfter(old(ledger.config), f)
            case None => !ok && unchanged(ledger)
            case Some(c) =>
              if c == old(ledger.config) then ok && unchanged(ledger)
              else if !approved then !ok && unchanged(ledger)
              else ok && ledger.config == c && ledger.version == old(ledger.version) + 1
    ensures ok ==> Allowed(old(ledger.config), f)
    ensures Allowed(old(ledger.config), f) && approved ==> ok
    ensures ok ==> FollowerDelivered(old(ledger.config), f, ledger.config)
    ensures !ok ==> unchanged(ledger)
  {
    var block, base := ledger.config, ledger.version;
    var tx := new Transaction(block);
    AllowedIff(block, f);
    var edited := EditOwnOrganization(tx, f);
    if !edited {
      return false;
    }
    FollowerDelivers(block, f);
    if tx.UpdatedConfig() == block {
      return true;
    }
    if !approved {
      return false;
    }
    ok := ledger.SaveChannel(base, tx.UpdatedConfig());
  }
}
