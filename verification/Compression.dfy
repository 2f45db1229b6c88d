/**
 * Reports on transitions, the compression of a finished transition into a summary record, and
 * the removal of a transition with its tasks.
 */
module Compression {
  import opened Wrappers
  import opened PowerTypes
  import opened Records
  import opened KeySpace
  import opened Truncation
  import opened Paging
  import opened EtcdStore
  import opened EtcdStorage

  // Reports --------------------------------------------------------------------------------------

  datatype Resp = Resp(
    id: Uuid,
    operation: Operation,
    created: int,
    expires: int,
    status: string,
    counts: TaskCounts,
    tasks: seq<TaskResp>)

  const NEW := "new"
  const IN_PROGRESS := "in-progress"
  const FAILED := "failed"
  const SUCCEEDED := "succeeded"
  const UNSUPPORTED := "unsupported"

  /** How many tasks have a status. */
  function CountOf(tasks: seq<TaskRecord>, status: string): nat {
    if tasks == [] then 0
    else CountOf(tasks[..|tasks| - 1], status) + (if tasks[|tasks| - 1].resp.status == status then 1 else 0)
  }

  function Counts(tasks: seq<TaskRecord>): TaskCounts {
    TaskCounts(|tasks|, CountOf(tasks, NEW), CountOf(tasks, IN_PROGRESS), CountOf(tasks, FAILED),
               CountOf(tasks, SUCCEEDED), CountOf(tasks, UNSUPPORTED))
  }

  function Report(tasks: seq<TaskRecord>): seq<TaskResp> {
    seq(|tasks|, i requires 0 <= i < |tasks| => tasks[i].resp)
  }

  predicate KnownStatus(status: string) {
    status == NEW || status == IN_PROGRESS || status == FAILED || status == SUCCEEDED || status == UNSUPPORTED
  }

  function SumOf(c: TaskCounts): int {
    c.new_ + c.inProgress + c.failed + c.succeeded + c.unsupported
  }

  /** The five counts add up to the total exactly when every task has one of the five statuses. */
  lemma {:induction false} CountsAddUp(tasks: seq<TaskRecord>)
    ensures Counts(tasks).total == |tasks|
    ensures SumOf(Counts(tasks)) <= |tasks|
    ensures SumOf(Counts(tasks)) == Counts(tasks).total <==>
            forall i :: 0 <= i < |tasks| ==> KnownStatus(tasks[i].resp.status)
  {
    if tasks != [] {
      var init := tasks[..|tasks| - 1];
      CountsAddUp(init);
      OneOfFive(tasks[|tasks| - 1].resp.status);
      assert forall i :: 0 <= i < |init| ==> init[i] == tasks[i];
      assert tasks == init + [tasks[|tasks| - 1]];
    }
  }

  lemma OneOfFive(s: string)
    ensures (if s == NEW then 1 else 0) + (if s == IN_PROGRESS then 1 else 0) + (if s == FAILED then 1 else 0)
            + (if s == SUCCEEDED then 1 else 0) + (if s == UNSUPPORTED then 1 else 0)
            == if KnownStatus(s) then 1 else 0
  {
  }

  /** The positions at which a task has a status, and how many they are. */
  function Positions(tasks: seq<TaskRecord>, status: string): set<nat> {
    set i: nat | i < |tasks| && tasks[i].resp.status == status
  }

  function HowMany(tasks: seq<TaskRecord>, status: string): nat {
    |Positions(tasks, status)|
  }

  lemma PositionsStep(tasks: seq<TaskRecord>, status: string, n: nat)
    requires |tasks| == n + 1
    ensures n !in Positions(tasks[..n], status)
    ensures Positions(tasks, status) ==
            Positions(tasks[..n], status) + if tasks[n].resp.status == status then {n} else {}
  {
  }

  lemma {:induction false} CountIsHowMany(tasks: seq<TaskRecord>, status: string)
    ensures CountOf(tasks, status) == HowMany(tasks, status)
  {
    if tasks == [] {
      assert Positions(tasks, status) == {};
    } else {
      hide Positions;
      var n := |tasks| - 1;
      CountIsHowMany(tasks[..n], status);
      PositionsStep(tasks, status, n);
    }
  }

  /** Each count is the number of positions with its own status. */
  lemma CountsAreHowMany(tasks: seq<TaskRecord>)
    ensures Counts(tasks) == TaskCounts(|tasks|, HowMany(tasks, "new"), HowMany(tasks, "in-progress"),
                                        HowMany(tasks, "failed"), HowMany(tasks, "succeeded"), HowMany(tasks,
                                            "unsupported"))
  {
    hide HowMany, CountOf;
    CountIsHowMany(tasks, "new");
    CountIsHowMany(tasks, "in-progress");
    CountIsHowMany(tasks, "failed");
    CountIsHowMany(tasks, "succeeded");
    CountIsHowMany(tasks, "unsupported");
  }

  function ToResp(t: Transition, tasks: seq<TaskRecord>, full: bool): Resp {
    Resp(t.id, t.header.operation, t.header.created, t.header.expires, t.header.status,
         if t.header.compressed then t.header.counts else Counts(tasks),
         if !full then [] else if t.header.compressed then t.lists.tasks else Report(tasks))
  }

  /** Counts the tasks by status, and lists them when a full report is wanted. */
  method ToTransitionResp(t: Transition, tasks: seq<TaskRecord>, full: bool) returns (r: Resp)
    ensures r == ToResp(t, tasks, full)
    ensures r.id == t.id && r.operation == t.header.operation && r.status == t.header.status
    ensures r.created == t.header.created && r.expires == t.header.expires
    ensures t.header.compressed ==> r.counts == t.header.counts && r.tasks == if full then t.lists.tasks else []
    ensures !t.header.compressed ==>
              && r.counts.total == |tasks|
              && r.counts.new_ == HowMany(tasks, "new") && r.counts.inProgress == HowMany(tasks, "in-progress")
              && r.counts.failed == HowMany(tasks, "failed") && r.counts.succeeded == HowMany(tasks, "succeeded")
              && r.counts.unsupported == HowMany(tasks, "unsupported")
    ensures !t.header.compressed && full ==>
              |r.tasks| == |tasks| && forall i :: 0 <= i < |tasks| ==> r.tasks[i] == tasks[i].resp
    ensures !full ==> r.tasks == []
  {
    CountsAreHowMany(tasks);
    var none := TaskCounts(0, 0, 0, 0, 0, 0);
    r := Resp(t.id, t.header.operation, t.header.created, t.header.expires, t.header.status, none, []);
    if t.header.compressed {
      r := r.(counts := t.header.counts);
      if full {
        r := r.(tasks := t.lists.tasks);
      }
      return;
    }
    var counts := none;
    var listed: seq<TaskResp> := [];
    for i := 0 to |tasks|
      invariant counts == Counts(tasks[..i])
      invariant listed == if full then Report(tasks[..i]) else []
    {
      assert tasks[..i + 1][..i] == tasks[..i];
      OneOfFive(tasks[i].resp.status);
      counts := Tally(counts, tasks[i].resp.status);
      if full {
        listed := listed + [tasks[i].resp];
      }
    }
    assert tasks[..|tasks|] == tasks;
    r := r.(counts := counts, tasks := listed);
  }

  /** One more task with a status. */
  function Tally(c: TaskCounts, status: string): TaskCounts {
    var more := c.(total := c.total + 1);
    if status == NEW then more.(new_ := c.new_ + 1)
    else if status == IN_PROGRESS then more.(inProgress := c.inProgress + 1)
    else if status == FAILED then more.(failed := c.failed + 1)
    else if status == SUCCEEDED then more.(succeeded := c.succeeded + 1)
    else if status == UNSUPPORTED then more.(unsupported := c.unsupported + 1)
    else more
  }

  /** What a request for one transition is answered with. */
  ghost function Response(cfg: Config, kv: Store, id: Uuid): Option<Resp>
    requires WellFormed(kv) && IsUuid(id)
  {
    match Answer(cfg, kv, id)
    case None => None
    case Some(t) => Some(ToResp(t, if t.header.compressed then [] else TasksIn(cfg, kv, id), true))
  }

  method GetTransitionResponse(store: Storage, id: Uuid) returns (r: Option<Resp>)
    requires store.Valid() && IsUuid(id)
    ensures r == Response(store.cfg, store.kv, id)
  {
    hide IsUuid, TasksIn, Answer;
    var whole, _ := store.GetTransition(id);
    if whole.None? {
      return None;
    }
    var tasks := [];
    if !whole.value.header.compressed {
      tasks := store.GetAllTasks(id);
    }
    var resp := ToTransitionResp(whole.value, tasks, true);
    r := Some(resp);
  }

  // Compression ----------------------------------------------------------------------------------

  /** The record compression writes for an uncompressed transition. */
  function Summary(cfg: Config, kv: Store, t: Transition, status: string): Transition
    requires WellFormed(kv) && IsUuid(t.id)
  {
    var resp := ToResp(t, TasksIn(cfg, kv, t.id), true);
    t.(header := t.header.(counts := resp.counts, status := status, compressed := true),
       lists := t.lists.(tasks := resp.tasks))
  }

  predicate TaskOf(k: Key, id: Uuid) {
    k.TaskKey? && k.id == id
  }

  function TaskKeys(id: Uuid, tasks: seq<TaskRecord>): set<Key> {
    set t | t in tasks :: TaskKey(id, t.id)
  }

  /** The tasks a scan returns stand for all the stored tasks of the transition. */
  lemma TasksInCover(cfg: Config, kv: Store, id: Uuid)
    requires WellFormed(kv) && IsUuid(id)
    ensures TaskKeys(id, TasksIn(cfg, kv, id)) == set k | k in kv && TaskOf(k, id)
  {
    hide IsUuid, ScanKeys, WellFormed, FetchTasks;
    ScanListsFamily(kv, TasksOf(id), cfg.closedRanges);
    var keys := ScanKeys(kv, TasksOf(id), cfg.closedRanges);
    var tasks := TasksIn(cfg, kv, id);
    forall k | k in kv && TaskOf(k, id) ensures k in TaskKeys(id, tasks) {
      var i :| 0 <= i < |keys| && keys[i] == k;
      assert tasks[i] in tasks;
    }
    forall t | t in tasks ensures TaskKey(id, t.id) in kv {
      var i :| 0 <= i < |tasks| && tasks[i] == t;
      assert keys[i] in keys;
    }
  }

  /** Deletes tasks one by one; trail is the store before each deletion and after the last. */
  method DeleteTasks(store: Storage, id: Uuid, tasks: seq<TaskRecord>) returns (ghost trail: seq<Store>)
    requires store.Valid()
    modifies store`kv
    ensures store.Valid() && store.kv == Without(old(store.kv), TaskKeys(id, tasks))
    ensures |trail| == |tasks| + 1
    ensures forall i :: 0 <= i <= |tasks| ==> trail[i] == Without(old(store.kv), TaskKeys(id, tasks[..i]))
  {
    hide WellFormed;
    trail := [store.kv];
    assert store.kv == Without(old(store.kv), TaskKeys(id, tasks[..0]));
    for i := 0 to |tasks|
      invariant store.Valid()
      invariant store.kv == Without(old(store.kv), TaskKeys(id, tasks[..i]))
      invariant |trail| == i + 1
      invariant forall j :: 0 <= j <= i ==> trail[j] == Without(old(store.kv), TaskKeys(id, tasks[..j]))
    {
      store.DeleteTransitionTask(id, tasks[i].id);
      assert TaskKeys(id, tasks[..i + 1]) == TaskKeys(id, tasks[..i]) + {TaskKey(id, tasks[i].id)} by {
        assert tasks[..i + 1] == tasks[..i] + [tasks[i]];
      }
      trail := trail + [store.kv];
    }
    assert tasks[..|tasks|] == tasks;
  }

  /** Stores the summary and then deletes the tasks it was made from; trail is the store after each of these. */
  method CompressAndComplete(store: Storage, t: Transition, status: string) returns (ghost trail: seq<Store>)
    requires store.Valid() && IsUuid(t.id)
    modifies store`kv
    ensures store.Valid()
    ensures store.kv == Without(Stored(store.cfg, old(store.kv), Summary(store.cfg, old(store.kv), t, status)),
                                set k | k in old(store.kv) && TaskOf(k, t.id))
    ensures var tasks := TasksIn(store.cfg, old(store.kv), t.id);
            && |trail| == |tasks| + 1
            && forall i :: 0 <= i <= |tasks| ==>
                 trail[i] == Without(Stored(store.cfg, old(store.kv), Summary(store.cfg, old(store.kv), t, status)),
                                     TaskKeys(t.id, tasks[..i]))
  {
    hide IsUuid, WellFormed, Stored, TasksIn, ToResp;
    var tasks := store.GetAllTasks(t.id);
    var resp := ToTransitionResp(t, tasks, true);
    var summary := t.(header := t.header.(counts := resp.counts, status := status, compressed := true),
                      lists := t.lists.(tasks := resp.tasks));
    var reports := new TaskResp[|resp.tasks|](i requires 0 <= i < |resp.tasks| => resp.tasks[i]);
    assert reports[..] == resp.tasks;
    TasksInCover(store.cfg, store.kv, t.id);
    store.StoreTransition(summary, reports);
    trail := DeleteTasks(store, t.id, tasks);
  }

  /** Deletes the tasks of a transition and then the transition. */
  method RemoveTransition(store: Storage, id: Uuid)
    requires store.Valid() && IsUuid(id)
    modifies store`kv
    ensures store.Valid()
    ensures forall k :: k in store.kv ==> k in old(store.kv) && store.kv[k] == old(store.kv)[k]
    ensures forall k :: k in store.kv ==> !TaskOf(k, id) && k != TransitionKey(id)
    ensures store.cfg.sizeChecks ==> forall k :: k in store.kv ==> !(k.PageKey? && k.id == id)
    ensures forall k :: k in store.kv ==> !(k.TaskKey? && k.id == id)
    ensures forall k :: k in old(store.kv) && k != TransitionKey(id) && !((k.PageKey? || k.TaskKey?) && k.id == id) ==>
              k in store.kv
  {
    hide IsUuid, WellFormed, TasksIn, TaskKeys;
    var tasks := store.GetAllTasks(id);
    TasksInCover(store.cfg, store.kv, id);
    var _ := DeleteTasks(store, id, tasks);
    store.DeleteTransition(id);
  }

  // Compression keeps the answer -----------------------------------------------------------------

  /** Pages of a transition that was never compressed hold no task reports. */
  ghost predicate PagesWithoutTasks(kv: Store, id: Uuid)
    requires WellFormed(kv)
  {
    forall i: nat :: PageKey(id, i) in kv ==> kv[PageKey(id, i)].page.lists.tasks == []
  }

  lemma {:induction false} NoReportsInPages(kv: Store, id: Uuid, low: nat, high: nat)
    requires WellFormed(kv) && PagesWithoutTasks(kv, id)
    ensures JoinPages(PagesIn(kv, id, low, high)).tasks == []
    decreases high - low
  {
    if low < high {
      NoReportsInPages(kv, id, low + 1, high);
      var rest := PagesIn(kv, id, low + 1, high);
      if PageKey(id, low) in kv {
        assert ([kv[PageKey(id, low)].page] + rest)[1..] == rest;
      } else {
        assert PagesIn(kv, id, low, high) == rest;
      }
    }
  }

  lemma PlainPages(t: Transition, stride: nat, window: nat, i: nat)
    requires stride > 0 && window > 0 && t.lists.tasks == [] && i < |Broken(t, stride, window).1|
    ensures Broken(t, stride, window).1[i].lists.tasks == []
  {
  }

  lemma PreparedIsPlain(cfg: Config, t: Transition, i: nat)
    requires cfg.Valid() && t.lists.tasks == [] && i < |Prepared(cfg, t).1|
    ensures Prepared(cfg, t).1[i].lists.tasks == []
  {
    hide Broken;
    var short := Truncated(cfg, t);
    assert short.lists.tasks == [];
    PlainPages(short, cfg.pageSize, Window(cfg, short.lists), i);
  }

  /** Storing a transition that carries no reports keeps its pages free of them. */
  lemma UncompressedStoreKeepsPagesPlain(cfg: Config, kv: Store, t: Transition)
    requires cfg.Valid() && WellFormed(kv) && IsUuid(t.id) && PagesWithoutTasks(kv, t.id) && t.lists.tasks == []
    ensures WellFormed(Stored(cfg, kv, t)) && PagesWithoutTasks(Stored(cfg, kv, t), t.id)
  {
    hide IsUuid, PutPages, Prepared;
    StoredIsWellFormed(cfg, kv, t);
    PreparedReassembles(cfg, t);
    var (first, pages) := Prepared(cfg, t);
    PutPagesContents(kv[TransitionKey(t.id) := TransitionValue(first)], pages, t.id);
    forall i: nat | i < |pages| ensures pages[i].lists.tasks == [] {
      PreparedIsPlain(cfg, t, i);
    }
  }

  /** Deleting tasks changes no page. */
  lemma {:induction false} PagesApartFromTasks(kv: Store, gone: set<Key>, id: Uuid, low: nat, high: nat)
    requires WellFormed(kv) && WellFormed(Without(kv, gone)) && forall k :: k in gone ==> k.TaskKey?
    ensures PagesIn(Without(kv, gone), id, low, high) == PagesIn(kv, id, low, high)
    decreases high - low
  {
    if low < high {
      PagesApartFromTasks(kv, gone, id, low + 1, high);
    }
  }

  lemma AnswerApartFromTasks(cfg: Config, kv: Store, gone: set<Key>, id: Uuid)
    requires WellFormed(kv) && forall k :: k in gone ==> k.TaskKey?
    ensures WellFormed(Without(kv, gone))
    ensures Answer(cfg, Without(kv, gone), id) == Answer(cfg, kv, id)
  {
    hide PagesIn, PageBound, JoinPages;
    var less := Without(kv, gone);
    NoPagesPastBound(kv, id);
    NoPagesPastBound(less, id);
    var bound := Max(PageBound(kv.Keys), PageBound(less.Keys));
    AnyBound(kv, id, 0, PageBound(kv.Keys), bound);
    AnyBound(less, id, 0, PageBound(less.Keys), bound);
    PagesApartFromTasks(kv, gone, id, 0, bound);
  }

  /** When a summary is written as it is: no report is lost and no message is cut. */
  predicate WrittenWhole(cfg: Config, s: Transition) {
    && !LosesTasks(cfg, s)
    && (cfg.sizeChecks && cfg.size(s) > cfg.maxObjectSize ==>
          forall i :: 0 <= i < |s.lists.tasks| ==> Untouched(s.lists.tasks[i], cfg.maxMessageLen))
  }

  lemma WrittenWholeExactly(cfg: Config, s: Transition)
    ensures KeptTasks(cfg, s) == s.lists.tasks <==> WrittenWhole(cfg, s)
  {
    hide Shortened, Untouched;
    KeptExactly(cfg, s);
    ListUntouchedExactly(s.lists.tasks, cfg.maxMessageLen);
    if LosesTasks(cfg, s) {
      assert |KeptTasks(cfg, s)| < |s.lists.tasks|;
    }
  }

  /**
   * Once the summary is stored, and whichever of the tasks are already deleted, a request for the
   * transition is answered as before but for the status and the reports the writing shortened or
   * lost; nothing but the status differs exactly when the summary is written whole.
   */
  lemma CompressionKeepsAnswer(cfg: Config, kv: Store, t: Transition, status: string, gone: set<Key>)
    requires cfg.Valid() && WellFormed(kv) && IsUuid(t.id) && PagesWithoutTasks(kv, t.id)
    requires Answer(cfg, kv, t.id).Some?
    requires var h := Answer(cfg, kv, t.id).value.header;
             && !h.compressed && !t.header.compressed
             && h.operation == t.header.operation && h.created == t.header.created && h.expires == t.header.expires
    requires forall k :: k in gone ==> k.TaskKey?
    ensures var s := Summary(cfg, kv, t, status);
            var after := Without(Stored(cfg, kv, s), gone);
            var was := Response(cfg, kv, t.id);
            && WellFormed(after) && was.Some?
            && Answer(cfg, after, t.id).Some?
            && Answer(cfg, after, t.id).value.header ==
               t.header.(status := status, compressed := true, counts := was.value.counts)
            && Response(cfg, after, t.id) == Some(was.value.(status := status, tasks := KeptTasks(cfg, s)))
            && (Response(cfg, after, t.id) == Some(was.value.(status := status)) <==> WrittenWhole(cfg, s))
  {
    hide IsUuid, Stored, PagesWithoutTasks, TasksIn, Answer, KeptTasks, WrittenWhole, PagesIn, Prepared, JoinPages;
    var s := Summary(cfg, kv, t, status);
    var n := |Prepared(cfg, s).1|;
    StoreThenRead(cfg, kv, s);
    AnswerApartFromTasks(cfg, Stored(cfg, kv, s), gone, t.id);
    WrittenWholeExactly(cfg, s);
    NoReportsInPages(kv, t.id, n, PageBound(kv.Keys));
    assert Join(Kept(cfg, s), Leftover(cfg, kv, t.id, n)).tasks == KeptTasks(cfg, s);
    var was := Response(cfg, kv, t.id).value;
    assert was.tasks == s.lists.tasks && was.counts == s.header.counts;
    var after := Without(Stored(cfg, kv, s), gone);
    var back := Answer(cfg, after, t.id).value;
    assert back.lists.tasks == KeptTasks(cfg, s) && back.header == s.header;
    assert Response(cfg, after, t.id).value == was.(status := status, tasks := KeptTasks(cfg, s));
  }
}
