/** The storage object: the operations of the etcd storage layer on transitions and their tasks. */
module EtcdStorage {
  import opened Wrappers
  import opened Records
  import opened KeySpace
  import opened Paging
  import opened EtcdStore

  function FetchTasks(kv: Store, keys: seq<Key>): (r: seq<TaskRecord>)
    requires WellFormed(kv) && forall k :: k in keys ==> k in kv && k.TaskKey?
    ensures |r| == |keys|
    ensures forall i :: 0 <= i < |r| ==> TaskKey(r[i].transition, r[i].id) == keys[i]
    ensures forall i :: 0 <= i < |r| ==> kv[keys[i]] == TaskValue(r[i])
  {
    if keys == [] then []
    else
      var last := keys[|keys| - 1];
      FetchTasks(kv, keys[..|keys| - 1]) + [kv[last].task]
  }

  /** The stored tasks of a transition, in text order of their keys. */
  function TasksIn(cfg: Config, kv: Store, id: Uuid): seq<TaskRecord>
    requires WellFormed(kv) && IsUuid(id)
  {
    ScanListsFamily(kv, TasksOf(id), cfg.closedRanges);
    FetchTasks(kv, ScanKeys(kv, TasksOf(id), cfg.closedRanges))
  }

  /** A transition's listed tasks are its stored ones. */
  lemma ListedTask(cfg: Config, kv: Store, id: Uuid, t: TaskRecord)
    requires WellFormed(kv) && IsUuid(id)
    ensures t in TasksIn(cfg, kv, id) <==>
            t.transition == id && TaskKey(id, t.id) in kv && kv[TaskKey(id, t.id)] == TaskValue(t)
  {
    hide IsUuid, ScanKeys, FetchTasks;
    ScanListsFamily(kv, TasksOf(id), cfg.closedRanges);
    var keys, tasks := ScanKeys(kv, TasksOf(id), cfg.closedRanges), TasksIn(cfg, kv, id);
    if t in tasks {
      var i :| 0 <= i < |tasks| && tasks[i] == t;
      assert keys[i] in keys;
    }
    if t.transition == id && TaskKey(id, t.id) in kv && kv[TaskKey(id, t.id)] == TaskValue(t) {
      var i :| 0 <= i < |keys| && keys[i] == TaskKey(id, t.id);
      assert tasks[i] == t;
    }
  }

  lemma {:induction false} SameFetch(kv: Store, kv': Store, keys: seq<Key>)
    requires WellFormed(kv) && WellFormed(kv')
    requires forall k :: k in keys ==> k.TaskKey? && k in kv && k in kv' && kv[k] == kv'[k]
    ensures FetchTasks(kv, keys) == FetchTasks(kv', keys)
  {
    hide WellFormed;
    if keys != [] {
      SameFetch(kv, kv', keys[..|keys| - 1]);
    }
  }

  /** Stores that agree on a family answer its scan alike. */
  lemma SameScan(kv: Store, kv': Store, scan: Scan, closed: bool)
    requires WellFormed(kv) && WellFormed(kv') && ValidScan(scan)
    requires forall k :: Belongs(scan, k) ==> (k in kv <==> k in kv')
    ensures ScanKeys(kv, scan, closed) == ScanKeys(kv', scan, closed)
  {
    hide Belongs, ValidKey, Matches, Text, InRange, Low, High;
    forall k | k in kv || k in kv' ensures InRange(Text(k), Low(scan), High(scan), closed) <==> Belongs(scan, k) {
      ScanIsFilter(scan, k, closed);
    }
    assert (set k | k in kv && InRange(Text(k), Low(scan), High(scan), closed))
        == (set k | k in kv' && InRange(Text(k), Low(scan), High(scan), closed));
  }

  /**
   * Storing a task lists it with its transition in place of an earlier version, and leaves other transitions'
   * tasks as listed.
   */
  lemma StoredTaskIsListed(cfg: Config, kv: Store, task: TaskRecord)
    requires WellFormed(kv) && IsUuid(task.transition) && IsUuid(task.id)
    ensures var kv' := kv[TaskKey(task.transition, task.id) := TaskValue(task)];
            && WellFormed(kv')
            && (forall t :: t in TasksIn(cfg, kv', task.transition) <==>
                            t == task || (t in TasksIn(cfg, kv, task.transition) && t.id != task.id))
            && (forall id :: IsUuid(id) && id != task.transition ==> TasksIn(cfg, kv', id) == TasksIn(cfg, kv, id))
  {
    hide IsUuid;
    var kv' := kv[TaskKey(task.transition, task.id) := TaskValue(task)];
    assert WellFormed(kv');
    hide WellFormed, TasksIn;
    forall t ensures t in TasksIn(cfg, kv', task.transition) <==>
                     t == task || (t in TasksIn(cfg, kv, task.transition) && t.id != task.id)
    {
      ListedTask(cfg, kv, task.transition, t);
      ListedTask(cfg, kv', task.transition, t);
    }
    forall id | IsUuid(id) && id != task.transition ensures TasksIn(cfg, kv', id) == TasksIn(cfg, kv, id) {
      OtherTasksStay(cfg, kv, task, id);
    }
  }

  lemma OtherTasksStay(cfg: Config, kv: Store, task: TaskRecord, id: Uuid)
    requires WellFormed(kv) && IsUuid(task.transition) && IsUuid(task.id) && IsUuid(id) && id != task.transition
    ensures var kv' := kv[TaskKey(task.transition, task.id) := TaskValue(task)];
            WellFormed(kv') && TasksIn(cfg, kv', id) == TasksIn(cfg, kv, id)
  {
    hide IsUuid;
    var kv' := kv[TaskKey(task.transition, task.id) := TaskValue(task)];
    assert WellFormed(kv');
    SameTasks(cfg, kv, kv', id);
  }

  /** Stores that agree on the tasks of a transition list them alike. */
  lemma SameTasks(cfg: Config, kv: Store, kv': Store, id: Uuid)
    requires WellFormed(kv) && WellFormed(kv') && IsUuid(id)
    requires forall k: Key :: k.TaskKey? && k.id == id ==> (k in kv <==> k in kv') && (k in kv ==> kv[k] == kv'[k])
    ensures TasksIn(cfg, kv', id) == TasksIn(cfg, kv, id)
  {
    hide IsUuid, WellFormed, ScanKeys, FetchTasks;
    ScanListsFamily(kv, TasksOf(id), cfg.closedRanges);
    SameScan(kv, kv', TasksOf(id), cfg.closedRanges);
    SameFetch(kv, kv', ScanKeys(kv, TasksOf(id), cfg.closedRanges));
  }

  function PageKeys(id: Uuid, pages: seq<Page>): set<Key> {
    set p | p in pages :: PageKey(id, p.index)
  }

  /** What deleting a transition removes: its first page, and its later pages unless size checks are off. */
  function Removed(cfg: Config, kv: Store, id: Uuid): set<Key> {
    if cfg.sizeChecks then set k | k in kv && PartOf(k, id) else {TransitionKey(id)}
  }

  lemma AllPagesAreThePart(kv: Store, id: Uuid)
    requires WellFormed(kv)
    ensures PageKeys(id, AllPages(kv, id)) == set k | k in kv && k.PageKey? && k.id == id
  {
    hide PagesIn, PageBound;
    NoPagesPastBound(kv, id);
    PagesInMembers(kv, id, 0, PageBound(kv.Keys));
    forall k | k in kv && k.PageKey? && k.id == id ensures k in PageKeys(id, AllPages(kv, id)) {
      assert kv[PageKey(id, k.index)].page in AllPages(kv, id);
    }
  }

  class Storage {
    const cfg: Config
    var kv: Store

    ghost predicate Valid()
      reads this
    {
      cfg.Valid() && WellFormed(kv)
    }

    constructor (cfg: Config)
      requires cfg.Valid()
      ensures Valid() && this.cfg == cfg && kv == map[]
    {
      this.cfg := cfg;
      kv := map[];
    }

    method StorePages(pages: seq<Page>, ghost id: Uuid)
      requires Valid() && IsUuid(id) && Numbered(pages, id)
      modifies this`kv
      ensures Valid() && kv == PutPages(old(kv), pages)
    {
      hide IsUuid;
      for i := 0 to |pages|
        invariant kv == PutPages(old(kv), pages[..i])
      {
        kv := kv[PageKey(pages[i].id, pages[i].index) := PageValue(pages[i])];
        assert pages[..i + 1][..i] == pages[..i];
      }
      assert pages[..|pages|] == pages;
      PutPagesContents(old(kv), pages, id);
    }

    method StoreTransition(t: Transition, tasks: array<TaskResp>)
      requires Valid() && IsUuid(t.id) && tasks[..] == t.lists.tasks
      modifies this`kv, tasks
      ensures Valid() && kv == Stored(cfg, old(kv), t)
      ensures tasks[..] == Messages(cfg, t)
      ensures TransitionKey(t.id) in kv
      ensures cfg.sizeChecks ==> Acceptable(cfg, kv[TransitionKey(t.id)].transition)
      ensures cfg.sizeChecks ==>
                forall k :: k in kv && (k !in old(kv) || kv[k] != old(kv)[k]) && k.PageKey? ==>
                  Fits(kv[k].page.lists, cfg.pageSize)
      ensures forall k :: k in old(kv) && !PartOf(k, t.id) ==> k in kv && kv[k] == old(kv)[k]
    {
      hide IsUuid, Prepared, PutPages, Messages;
      var first, pages := TruncateAndPage(cfg, t, tasks);
      PreparedReassembles(cfg, t);
      kv := kv[TransitionKey(t.id) := TransitionValue(first)];
      PutPagesContents(kv, pages, t.id);
      if cfg.sizeChecks { EntriesAreAcceptable(cfg, t); }
      StorePages(pages, t.id);
    }

    method GetTransitionPages(id: Uuid) returns (pages: seq<Page>)
      requires Valid() && IsUuid(id)
      ensures pages == AllPages(kv, id)
    {
      hide IsUuid, ScanKeys, SortPages, AllPages;
      ScanYieldsPages(kv, id, cfg.closedRanges);
      var keys := SortPages(ScanKeys(kv, PagesOf(id), cfg.closedRanges));
      pages := [];
      for i := 0 to |keys|
        invariant pages + Fetch(kv, keys[i..]) == Fetch(kv, keys)
      {
        assert keys[i..] == [keys[i]] + keys[i + 1..];
        assert keys[i] in keys;
        pages := pages + [kv[keys[i]].page];
      }
    }

    /** The whole transition, and its first page to test against later. */
    method GetTransition(id: Uuid) returns (whole: Option<Transition>, first: Option<Transition>)
      requires Valid() && IsUuid(id)
      ensures whole == Answer(cfg, kv, id)
      ensures first == if TransitionKey(id) in kv then Some(kv[TransitionKey(id)].transition) else None
    {
      if TransitionKey(id) !in kv {
        return None, None;
      }
      hide IsUuid, AllPages;
      var t := kv[TransitionKey(id)].transition;
      first := Some(t);
      if cfg.sizeChecks {
        var pages := GetTransitionPages(id);
        var lists := t.lists;
        JoinAssociates(lists, JoinPages(pages), NoLists);
        for i := 0 to |pages|
          invariant Join(lists, JoinPages(pages[i..])) == Join(t.lists, JoinPages(pages))
        {
          JoinStep(pages, i);
          JoinAssociates(lists, pages[i].lists, JoinPages(pages[i + 1..]));
          lists := Join(lists, pages[i].lists);
        }
        assert pages[|pages|..] == [];
        JoinAssociates(lists, NoLists, NoLists);
        t := t.(lists := lists);
      }
      whole := Some(t);
    }

    method TASTransition(t: Transition, tasks: array<TaskResp>, test: Transition) returns (ok: bool)
      requires Valid() && IsUuid(t.id) && tasks[..] == t.lists.tasks
      modifies this`kv, tasks
      ensures Valid() && kv == Swapped(cfg, old(kv), t, test)
      ensures tasks[..] == Messages(cfg, t)
      ensures ok <==> TransitionKey(t.id) in old(kv) && old(kv)[TransitionKey(t.id)] == TransitionValue(test)
      ensures ok ==> kv == Stored(cfg, old(kv), t)
      ensures ok && cfg.sizeChecks ==>
                TransitionKey(t.id) in kv && Acceptable(cfg, kv[TransitionKey(t.id)].transition)
      ensures !ok ==> forall k: Key :: k.TransitionKey? ==>
                        (k in kv <==> k in old(kv)) && (k in kv ==> kv[k] == old(kv)[k])
      ensures cfg.sizeChecks ==>
                forall k :: k in kv && (k !in old(kv) || kv[k] != old(kv)[k]) && k.PageKey? ==>
                  Fits(kv[k].page.lists, cfg.pageSize)
    {
      hide IsUuid, Prepared, PutPages, Messages;
      var first, pages := TruncateAndPage(cfg, t, tasks);
      PreparedReassembles(cfg, t);
      ok := TransitionKey(t.id) in kv && kv[TransitionKey(t.id)] == TransitionValue(test);
      if ok {
        kv := kv[TransitionKey(t.id) := TransitionValue(first)];
      }
      PutPagesContents(kv, pages, t.id);
      if cfg.sizeChecks { EntriesAreAcceptable(cfg, t); }
      StorePages(pages, t.id);
    }

    method StoreTransitionTask(task: TaskRecord)
      requires Valid() && IsUuid(task.transition) && IsUuid(task.id)
      modifies this`kv
      ensures Valid() && kv == old(kv)[TaskKey(task.transition, task.id) := TaskValue(task)]
      ensures forall t :: t in TasksIn(cfg, kv, task.transition) <==>
                          t == task || (t in TasksIn(cfg, old(kv), task.transition) && t.id != task.id)
      ensures forall id :: IsUuid(id) && id != task.transition ==> TasksIn(cfg, kv, id) == TasksIn(cfg, old(kv), id)
    {
      StoredTaskIsListed(cfg, kv, task);
      kv := kv[TaskKey(task.transition, task.id) := TaskValue(task)];
    }

    method DeleteTransitionTask(id: Uuid, task: Uuid)
      requires Valid()
      modifies this`kv
      ensures Valid() && kv == Without(old(kv), {TaskKey(id, task)})
    {
      kv := map k | k in kv && k != TaskKey(id, task) :: kv[k];
    }

    method GetAllTasks(id: Uuid) returns (tasks: seq<TaskRecord>)
      requires Valid() && IsUuid(id)
      ensures tasks == TasksIn(cfg, kv, id)
    {
      hide IsUuid, ScanKeys;
      ScanListsFamily(kv, TasksOf(id), cfg.closedRanges);
      var keys := ScanKeys(kv, TasksOf(id), cfg.closedRanges);
      assert forall k :: k in keys ==> k in kv && k.TaskKey?;
      tasks := [];
      for i := 0 to |keys|
        invariant tasks == FetchTasks(kv, keys[..i])
      {
        assert keys[..i + 1][..i] == keys[..i];
        assert keys[i] in keys;
        tasks := tasks + [kv[keys[i]].task];
      }
      assert keys[..|keys|] == keys;
    }

    method DeletePages(id: Uuid, pages: seq<Page>)
      requires Valid()
      modifies this`kv
      ensures Valid() && kv == Without(old(kv), PageKeys(id, pages))
    {
      for i := 0 to |pages|
        invariant Valid()
        invariant kv == Without(old(kv), PageKeys(id, pages[..i]))
      {
        kv := map k | k in kv && k != PageKey(id, pages[i].index) :: kv[k];
        assert PageKeys(id, pages[..i + 1]) == PageKeys(id, pages[..i]) + {PageKey(id, pages[i].index)} by {
          assert pages[..i + 1] == pages[..i] + [pages[i]];
        }
      }
      assert pages[..|pages|] == pages;
    }

    /** Removes the first page and every later page, and nothing else. */
    method DeleteTransition(id: Uuid)
      requires Valid() && IsUuid(id)
      modifies this`kv
      ensures Valid() && kv == Without(old(kv), Removed(cfg, old(kv), id))
    {
      hide IsUuid, AllPages, PageKeys;
      kv := map k | k in kv && k != TransitionKey(id) :: kv[k];
      assert kv == Without(old(kv), {TransitionKey(id)});
      if cfg.sizeChecks {
        ghost var mid := kv;
        var pages := GetTransitionPages(id);
        AllPagesAreThePart(mid, id);
        DeletePages(id, pages);
        assert Removed(cfg, old(kv), id) - {TransitionKey(id)} == set k | k in mid && k.PageKey? && k.id == id;
      }
    }
  }
}
