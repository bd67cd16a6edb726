/** What each kind of Porto call does to the invariant on records. */
module LifecycleRecords {
  import opened GoStrings
  import GoPaths
  import opened Labels
  import opened Network
  import opened Ids
  import opened Porto
  import opened Listing
  import opened Handlers
  import opened Lifecycle

  /** Nothing but states and environments changed. */
  ghost predicate Still(store: Store, store': Store) {
    && store'.Keys == store.Keys
    && forall id <- store :: SameRecord(store[id], store'[id])
  }

  predicate SameRecord(r: Rec, r': Rec) {
    r'.labels == r.labels && r'.net == r.net && r'.inst == r.inst && r'.created == r.created
  }

  predicate Loud(op: Op, reply: Reply) {
    || (op.Create? && reply.Created?)
    || (op.Update? && reply.Ok? && (op.labels.Some? || op.net.Some?))
    || (op.Destroy? && reply.Ok?)
  }

  lemma QuietCall(op: Op, store: Store, next: nat, reply: Reply, store': Store, next': nat)
    requires Call(op, store, next, reply, store', next') && !Loud(op, reply)
    ensures Still(store, store') && next' == next
  {
    hide LabelsText;
  }

  lemma OneWordHasNoNetns(word: string)
    requires word != "" && forall c <- word :: !IsSpace(c) && c != ';'
    ensures !HasNetns(word)
  {
    SplitOne(word, ';');
    assert word + "" == word;
    FieldsWord(word, "");
    assert Fields(word) == [word];
    assert [word][1..] == [] && AfterWord([word], ["netns"]) == "";
    assert FirstNet([word], ["netns"]) == FirstNet([], ["netns"]) == "";
  }

  lemma InheritedHasNoNetns()
    ensures !HasNetns(INHERITED)
  {
    hide HasNetns;
    OneWordHasNoNetns(INHERITED);
  }

  // ---- helpers and their parents

  ghost predicate SameLabels(store: Store, store': Store) {
    store'.Keys == store.Keys && forall id <- store :: store'[id].labels == store[id].labels
  }

  lemma SameAlias(store: Store, store': Store)
    requires AliasInv(store) && SameLabels(store, store')
    ensures AliasInv(store')
  {
    hide FromPortoLabels;
    forall id | id in store' ensures Readable(store'[id]) && HelperOk(store', id) && Placed(store', id) {
      assert HelperOk(store, id) && Placed(store, id);
    }
  }

  lemma WithoutAlias(store: Store, id: Id)
    requires AliasInv(store)
    ensures AliasInv(Without(store, id))
  {
    hide IsPriv, Readable;
    var store' := Without(store, id);
    forall x | x in store' ensures Readable(store'[x]) && HelperOk(store', x) && Placed(store', x) {
      assert HelperOk(store, x) && Placed(store, x);
      BelowParent(id, x);
    }
  }

  /** A helper comes only below a parent that is marked. */
  lemma CreateAlias(store: Store, id: Id, r: Rec)
    requires AliasInv(store) && id !in store && Placed(store, id) && Readable(r)
    requires Privileged(id) ==> |id| == 3 && r.labels == "" && IsPriv(store[ParentOf(id)])
    ensures AliasInv(store[id := r])
  {
    hide IsPriv, Readable;
    var store' := store[id := r];
    forall x | x in store' ensures Readable(store'[x]) && HelperOk(store', x) && Placed(store', x) {
      if x == id {
        assert Privileged(id) ==> Cri(id) == ParentOf(id);
      } else {
        assert HelperOk(store, x) && Placed(store, x);
      }
    }
  }

  /** A record without labels has no helper, so it can get any labels. */
  lemma LabelsAlias(store: Store, id: Id, r: Rec)
    requires AliasInv(store) && id in store && store[id].labels == "" && Readable(r) && !Privileged(id)
    ensures AliasInv(store[id := r])
  {
    hide FromPortoLabels;
    EmptyLabels();
    var store' := store[id := r];
    forall x | x in store' ensures Readable(store'[x]) && HelperOk(store', x) && Placed(store', x) {
      assert HelperOk(store, x) && Placed(store, x);
    }
  }

  lemma HelperIsNotMarked(store: Store, id: Id)
    requires AliasInv(store) && |id| == 2 && AliasOf(id) in store
    ensures !IsPriv(store[AliasOf(id)])
  {
    hide FromPortoLabels;
    EmptyLabels();
    assert HelperOk(store, AliasOf(id));
  }

  // ---- all of it

  lemma UniqueKept(store: Store, id: Id, r: Rec)
    requires Unique(store) && id in store && r.inst == store[id].inst
    ensures Unique(store[id := r])
  {
  }

  lemma StillRecords(c: Config, s: Sys, s': Sys)
    requires Records(c, s) && Still(s.store, s'.store)
    requires s'.next == s.next && s'.completed == s.completed && s'.runs == s.runs && s'.reported == s.reported
    ensures Records(c, s')
  {
    hide AliasInv, HasNetns, Attached, Prints, RunLabels;
    SameAlias(s.store, s'.store);
    forall id | id in s'.store ensures RecOk(c, s', id) {
      assert RecOk(c, s, id);
    }
  }

  lemma WithoutRecords(c: Config, s: Sys, id: Id, s': Sys)
    requires Records(c, s) && s'.store == Without(s.store, id)
    requires s'.next == s.next && s'.completed == s.completed && s'.runs == s.runs
    requires s'.reported == s.reported || (id in s.store && s'.reported == s.reported + [s.store[id].inst])
    ensures Records(c, s')
  {
    hide AliasInv, HasNetns, Attached, Prints, RunLabels;
    WithoutAlias(s.store, id);
    assert id in s.store ==> RecOk(c, s, id);
    forall x | x in s'.store ensures RecOk(c, s', x) {
      assert RecOk(c, s, x);
      NonEmpty(s.store, x);
      BelowParent(id, x);
    }
  }

  lemma NonEmpty(store: Store, x: Id)
    requires AliasInv(store) && x in store
    ensures x != []
  {
    assert Placed(store, x);
  }

  lemma CreateRecords(c: Config, s: Sys, id: Id, s': Sys)
    requires Records(c, s) && id !in s.store && Placed(s.store, id) && id in s'.store && s'.store == s.store[id := s'.store[id]]
    requires s'.store[id].inst == s.next && s'.store[id].net == INHERITED && Readable(s'.store[id])
    requires |id| >= 2 ==> s'.store[id].labels == ""
    requires Privileged(id) ==> |id| == 3 && IsPriv(s.store[ParentOf(id)])
    requires s'.next == s.next + 1 && s'.completed == s.completed && s'.runs == s.runs && s'.reported == s.reported
    ensures Records(c, s')
  {
    hide AliasInv, HasNetns, Attached, Prints, RunLabels, IsPriv, Readable;
    InheritedHasNoNetns();
    CreateAlias(s.store, id, s'.store[id]);
    forall x | x in s'.store ensures RecOk(c, s', x) {
      if x == id {
        assert |id| >= 2 ==> RecOk(c, s, ParentOf(id));
      } else {
        assert RecOk(c, s, x);
      }
    }
    forall x, y | x in s'.store && y in s'.store && s'.store[x].inst == s'.store[y].inst ensures x == y {
      assert x != id ==> RecOk(c, s, x);
      assert y != id ==> RecOk(c, s, y);
    }
  }

  /** The final update of CreateContainer gives the labels. */
  lemma LabelsRecords(c: Config, s: Sys, id: Id, s': Sys)
    requires Records(c, s) && id in s.store && |id| >= 2 && id in s'.store && s'.store == s.store[id := s'.store[id]]
    requires s.store[id].labels == "" && Readable(s'.store[id]) && !Privileged(id)
    requires s'.store[id].inst == s.store[id].inst && s'.store[id].net == s.store[id].net
    requires s'.next == s.next && s'.completed == s.completed + {s.store[id].inst} && s'.runs == s.runs && s'.reported == s.reported
    ensures Records(c, s')
  {
    hide AliasInv, Unique, HasNetns, Attached, Prints, RunLabels, Readable;
    LabelsAlias(s.store, id, s'.store[id]);
    UniqueKept(s.store, id, s'.store[id]);
    assert RecOk(c, s, id);
    forall x | x in s'.store ensures RecOk(c, s', x) {
      assert RecOk(c, s, x);
    }
  }

  /** The final update of RunPodSandbox gives the netns. */
  lemma NetRecords(c: Config, s: Sys, id: Id, ran: Ran, s': Sys)
    requires Records(c, s) && id in s.store && |id| == 1 && id in s'.store && s'.store == s.store[id := s'.store[id]]
    requires s.store[id].net == INHERITED && Prints(s.store[id].labels, RunLabels(ran.r))
    requires Attached(c, ran, id[0], s'.store[id].net)
    requires s'.store[id].inst == s.store[id].inst && s'.store[id].labels == s.store[id].labels
    requires s'.next == s.next && s'.completed == s.completed && s'.runs == s.runs[s.store[id].inst := ran] && s'.reported == s.reported
    ensures Records(c, s') && s.store[id].inst !in s.runs
  {
    hide AliasInv, Unique, HasNetns, Prints, RunLabels, Attached;
    SameAlias(s.store, s'.store);
    UniqueKept(s.store, id, s'.store[id]);
    assert RecOk(c, s, id);
    if s.store[id].inst in s.runs { StoredIsNotInherited(c, s, id); }
    forall x | x in s'.store ensures RecOk(c, s', x) {
      if x != id { NetElsewhere(c, s, id, ran, s', x); }
    }
  }

  lemma NetElsewhere(c: Config, s: Sys, id: Id, ran: Ran, s': Sys, x: Id)
    requires Unique(s.store) && id in s.store && id in s'.store && s'.store == s.store[id := s'.store[id]]
    requires s'.store[id].inst == s.store[id].inst && x in s.store && x != id && RecOk(c, s, x)
    requires s'.next == s.next && s'.completed == s.completed && s'.runs == s.runs[s.store[id].inst := ran] && s'.reported == s.reported
    ensures RecOk(c, s', x)
  {
    hide AliasInv, HasNetns, Prints, RunLabels, Attached;
    assert s.store[x].inst != s.store[id].inst;
  }

  lemma StoredIsNotInherited(c: Config, s: Sys, id: Id)
    requires id in s.store && RecOk(c, s, id) && s.store[id].inst in s.runs
    ensures s.store[id].net != INHERITED
  {
    AttachedHasNetns(c, s.runs[s.store[id].inst], id[0], s.store[id].net);
    InheritedHasNoNetns();
  }

  lemma AttachedHasNetns(c: Config, ran: Ran, pod: string, net: string)
    requires Attached(c, ran, pod, net)
    ensures HasNetns(net)
  {
    hide NetNS, GoPaths.Base, GoPaths.JoinPath;
    BaseOfJoin(c.netnsDir, ran.r.mode.name);
    NetTextRead(ran.r.mode.name);
  }
}
