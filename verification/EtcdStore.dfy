/**
 * The etcd storage layer for transitions: truncation, paging, reassembly, test-and-set and
 * deletion over one key-value store. The store is keyed by record identity, which is the same as
 * keying it by text because no two identities share a text.
 */
module EtcdStore {
  import opened Wrappers
  import opened Records
  import opened KeySpace
  import opened Truncation
  import opened Paging

  /** The storage settings; size is the length of a transition's encoding. */
  datatype Config = Config(
    sizeChecks: bool,
    pageSize: nat,
    maxMessageLen: nat,
    maxObjectSize: int,
    size: Transition -> int,
    closedRanges: bool)
  {
    /** Initialisation replaces a page size that is not positive. */
    predicate Valid() {
      pageSize > 0
    }
  }

  datatype Value =
    | TransitionValue(transition: Transition)
    | PageValue(page: Page)
    | TaskValue(task: TaskRecord)
    | OtherValue(text: string)

  type Store = map<Key, Value>

  predicate Matches(key: Key, value: Value) {
    match key
    case TransitionKey(id) => value.TransitionValue? && value.transition.id == id
    case PageKey(id, index) => value.PageValue? && value.page.id == id && value.page.index == index
    case TaskKey(id, task) => value.TaskValue? && value.task.transition == id && value.task.id == task
    case _ => value.OtherValue?
  }

  /** What a store built by the storing operations looks like. */
  predicate WellFormed(kv: Store) {
    forall k :: k in kv ==> ValidKey(k) && Matches(k, kv[k])
  }

  // What is written --------------------------------------------------------------------------

  function Window(cfg: Config, lists: Lists): nat {
    if |lists.tasks| < cfg.pageSize && |lists.locations| < cfg.pageSize then cfg.pageSize / 2 + 1 else cfg.pageSize
  }

  /** The task reports that are written: shortened when the transition is over the limit. */
  function Messages(cfg: Config, t: Transition): seq<TaskResp> {
    if cfg.sizeChecks && cfg.size(t) > cfg.maxObjectSize then ShortenedAll(t.lists.tasks, cfg.maxMessageLen)
    else t.lists.tasks
  }

  function Truncated(cfg: Config, t: Transition): Transition {
    t.(lists := t.lists.(tasks := Messages(cfg, t)))
  }

  predicate NeedsPages(cfg: Config, t: Transition) {
    && cfg.sizeChecks
    && cfg.size(t) >= cfg.maxObjectSize
    && cfg.size(Truncated(cfg, t)) >= cfg.maxObjectSize
  }

  /** The first page and the later pages of a transition. */
  function Prepared(cfg: Config, t: Transition): (Transition, seq<Page>)
    requires cfg.Valid()
  {
    var short := Truncated(cfg, t);
    if NeedsPages(cfg, t) then Broken(short, cfg.pageSize, Window(cfg, short.lists)) else (short, [])
  }

  /** Truncates in place in the caller's task list, then pages. */
  method TruncateAndPage(cfg: Config, t: Transition, tasks: array<TaskResp>)
    returns (first: Transition, pages: seq<Page>)
    requires cfg.Valid() && tasks[..] == t.lists.tasks
    modifies tasks
    ensures (first, pages) == Prepared(cfg, t)
    ensures tasks[..] == Messages(cfg, t)
  {
    hide ShortenedAll, Broken;
    assert t == t.(lists := t.lists.(tasks := tasks[..]));
    if !cfg.sizeChecks {
      return t, [];
    }
    var originalSize := cfg.size(t);
    if originalSize < cfg.maxObjectSize {
      return t, [];
    }
    var _ := TruncateTaskMessages(tasks, cfg.maxMessageLen, originalSize, cfg.maxObjectSize);
    var short := t.(lists := t.lists.(tasks := tasks[..]));
    assert short == Truncated(cfg, t);
    var truncatedSize := cfg.size(short);
    if truncatedSize < cfg.maxObjectSize {
      return short, [];
    }
    var pageSize := cfg.pageSize;
    if |short.lists.tasks| < pageSize && |short.lists.locations| < pageSize {
      pageSize := cfg.pageSize / 2 + 1;
    }
    first, pages := BreakIntoPages(short, cfg.pageSize, pageSize);
  }

  /**
   * When task reports get lost: the record must be paged, and its tasks and locations are both
   * fewer than the page size, so that the window is halved, but the tasks do not fit it.
   */
  predicate LosesTasks(cfg: Config, t: Transition) {
    && NeedsPages(cfg, t)
    && cfg.pageSize / 2 + 1 < |t.lists.tasks| < cfg.pageSize
    && |t.lists.locations| < cfg.pageSize
  }

  function KeptTasks(cfg: Config, t: Transition): seq<TaskResp> {
    if LosesTasks(cfg, t) then Messages(cfg, t)[..cfg.pageSize / 2 + 1] else Messages(cfg, t)
  }

  function Kept(cfg: Config, t: Transition): Lists {
    t.lists.(tasks := KeptTasks(cfg, t))
  }

  lemma KeptExactly(cfg: Config, t: Transition)
    ensures KeptTasks(cfg, t) == Messages(cfg, t) <==> !LosesTasks(cfg, t)
  {
    if LosesTasks(cfg, t) {
      assert |KeptTasks(cfg, t)| < |Messages(cfg, t)|;
    }
  }

  /** With the default numbers, every record of 2502 to 4999 tasks that has to be paged keeps its first 2501 reports. */
  lemma DefaultsLoseReports(cfg: Config, t: Transition)
    requires cfg.pageSize == 5000 && cfg.maxMessageLen == 130 && cfg.maxObjectSize == 1570000
    requires NeedsPages(cfg, t)
    requires 2501 < |t.lists.tasks| < 5000 && |t.lists.locations| < 5000
    ensures LosesTasks(cfg, t) && KeptTasks(cfg, t) == Messages(cfg, t)[..2501]
  {
  }

  /** An entry is of a size the store accepts: below the limit, or at least no list in it is longer than a page. */
  predicate Acceptable(cfg: Config, t: Transition) {
    cfg.size(t) < cfg.maxObjectSize || Fits(t.lists, cfg.pageSize)
  }

  /**
   * What truncation and paging are for. With size checks on, the entry written first is below the
   * size limit or has no list longer than a page, and no later page has one either; a record below
   * the limit is written as it is, one that shortened messages bring below the limit is written
   * whole with those, and neither has later pages. One that is over the limit even so is cut to
   * pages, or to half pages and one when neither its tasks nor its locations fill a page. The
   * messages of a record over the limit are short, those of any other are left alone.
   */
  lemma EntriesAreAcceptable(cfg: Config, t: Transition)
    requires cfg.Valid() && cfg.sizeChecks
    ensures var (first, pages) := Prepared(cfg, t);
            var short := t.(lists := t.lists.(tasks := ShortenedAll(t.lists.tasks, cfg.maxMessageLen)));
            && Acceptable(cfg, first)
            && (forall i :: 0 <= i < |pages| ==> Fits(pages[i].lists, cfg.pageSize))
            && (cfg.size(t) < cfg.maxObjectSize ==> first == t && pages == [])
            && (cfg.size(t) > cfg.maxObjectSize && cfg.size(short) < cfg.maxObjectSize ==>
                first == short && pages == [])
            && (cfg.size(t) >= cfg.maxObjectSize && cfg.size(if cfg.size(t) > cfg.maxObjectSize then short else t)
                                                    >= cfg.maxObjectSize ==>
                  var half := |t.lists.tasks| < cfg.pageSize && |t.lists.locations| < cfg.pageSize;
                  var most := if half then cfg.pageSize / 2 + 1 else cfg.pageSize;
                  Fits(first.lists, most) && forall i :: 0 <= i < |pages| ==> Fits(pages[i].lists, most))
            && (cfg.size(t) > cfg.maxObjectSize ==>
                  forall r :: r in KeptTasks(cfg, t) ==> |r.error| + |r.desc| <= cfg.maxMessageLen + 6)
            && (cfg.size(t) <= cfg.maxObjectSize ==> Messages(cfg, t) == t.lists.tasks)
  {
    var short := Truncated(cfg, t);
    assert t == t.(lists := t.lists.(tasks := t.lists.tasks));
    if NeedsPages(cfg, t) {
      BrokenIsShort(short, cfg.pageSize, Window(cfg, short.lists));
    }
  }

  /** With size checks off a record is written as it is. */
  lemma UncheckedIsWhole(cfg: Config, t: Transition)
    requires cfg.Valid() && !cfg.sizeChecks
    ensures Prepared(cfg, t) == (t, [])
  {
    assert t == t.(lists := t.lists.(tasks := t.lists.tasks));
  }

  /** What the written pages hold together. */
  lemma PreparedReassembles(cfg: Config, t: Transition)
    requires cfg.Valid()
    ensures var (first, pages) := Prepared(cfg, t);
            && first.id == t.id && first.header == t.header
            && Join(first.lists, JoinPages(pages)) == Kept(cfg, t)
            && (!cfg.sizeChecks ==> pages == [])
            && forall i :: 0 <= i < |pages| ==> pages[i].id == t.id && pages[i].index == i
  {
    var short := Truncated(cfg, t);
    var (first, pages) := Prepared(cfg, t);
    if NeedsPages(cfg, t) {
      var window := Window(cfg, short.lists);
      BrokenReassembles(short, cfg.pageSize, window);
      forall i | 0 <= i < |pages| ensures pages[i].id == t.id && pages[i].index == i {
        BrokenIndices(short, cfg.pageSize, window, i);
      }
    } else {
      JoinAssociates(short.lists, NoLists, NoLists);
    }
  }

  // Scans in text order ----------------------------------------------------------------------

  predicate AllValid(keys: set<Key>) {
    forall k :: k in keys ==> ValidKey(k)
  }

  predicate IsLeast(k: Key, keys: set<Key>) {
    k in keys && forall j :: j in keys ==> AtMost(Text(k), Text(j))
  }

  lemma {:induction false} LeastExists(keys: set<Key>)
    requires keys != {}
    ensures exists k :: IsLeast(k, keys)
  {
    hide AtMost, Text;
    var k :| k in keys;
    var rest := keys - {k};
    AtMostIsTotal(Text(k), Text(k));
    if rest == {} {
      assert keys == {k};
      assert IsLeast(k, keys);
    } else {
      LeastExists(rest);
      var m :| IsLeast(m, rest);
      AtMostIsTotal(Text(k), Text(m));
      if AtMost(Text(k), Text(m)) {
        forall j | j in keys ensures AtMost(Text(k), Text(j)) {
          if j != k {
            AtMostIsTransitive(Text(k), Text(m), Text(j));
          }
        }
        assert IsLeast(k, keys);
      } else {
        assert IsLeast(m, keys);
      }
    }
  }

  lemma LeastIsUnique(a: Key, b: Key, keys: set<Key>)
    requires AllValid(keys) && IsLeast(a, keys) && IsLeast(b, keys)
    ensures a == b
  {
    hide AtMost, Text, ValidKey;
    AtMostIsAntisymmetric(Text(a), Text(b));
    TextIsInjective(a, b);
  }

  predicate Distinct(s: seq<Key>) {
    forall i, j :: 0 <= i < j < |s| ==> s[i] != s[j]
  }

  /** The first of some keys in text order. */
  function Least(keys: set<Key>): (r: Key)
    requires AllValid(keys) && keys != {}
    ensures IsLeast(r, keys)
  {
    hide AtMost, Text, ValidKey;
    LeastExists(keys);
    assert forall a, b :: IsLeast(a, keys) && IsLeast(b, keys) ==> a == b by {
      forall a, b | IsLeast(a, keys) && IsLeast(b, keys) ensures a == b {
        LeastIsUnique(a, b, keys);
      }
    }
    var k :| IsLeast(k, keys);
    k
  }

  /** Keys in text order, as a range query returns them. */
  function Listing(keys: set<Key>): (r: seq<Key>)
    requires AllValid(keys)
    ensures forall k :: k in r <==> k in keys
    ensures Distinct(r)
  {
    if keys == {} then [] else [Least(keys)] + Listing(keys - {Least(keys)})
  }

  lemma {:induction false} ListingInOrder(keys: set<Key>, i: nat, j: nat)
    requires AllValid(keys) && i < j < |Listing(keys)|
    ensures AtMost(Text(Listing(keys)[i]), Text(Listing(keys)[j]))
  {
    hide AtMost, Text, ValidKey;
    var rest := Listing(keys - {Least(keys)});
    assert Listing(keys)[j] == rest[j - 1];
    if i == 0 {
      assert rest[j - 1] in rest;
    } else {
      ListingInOrder(keys - {Least(keys)}, i - 1, j - 1);
    }
  }

  function GetRange(kv: Store, low: string, high: string, closed: bool): seq<Key>
    requires WellFormed(kv)
  {
    Listing(set k | k in kv && InRange(Text(k), low, high, closed))
  }

  function ScanKeys(kv: Store, scan: Scan, closed: bool): seq<Key>
    requires WellFormed(kv)
  {
    GetRange(kv, Low(scan), High(scan), closed)
  }

  /** A scan lists the records it is for, all of them, each once, and no others. */
  lemma ScanListsFamily(kv: Store, scan: Scan, closed: bool)
    requires WellFormed(kv) && ValidScan(scan)
    ensures Distinct(ScanKeys(kv, scan, closed))
    ensures forall k :: k in ScanKeys(kv, scan, closed) <==> k in kv && Belongs(scan, k)
  {
    hide ValidKey, Text, InRange, Low, High, Belongs, ValidScan;
    forall k | k in kv ensures InRange(Text(k), Low(scan), High(scan), closed) <==> Belongs(scan, k) {
      ScanIsFilter(scan, k, closed);
    }
  }

  // Pages in index order -----------------------------------------------------------------------

  /** The number a page is sorted by. */
  function PageRank(k: Key): int {
    Number(AfterSlash(Text(k)))
  }

  function InsertPage(k: Key, sorted: seq<Key>): (r: seq<Key>)
    ensures forall j :: j in r <==> j == k || j in sorted
  {
    if sorted == [] || PageRank(k) < PageRank(sorted[0]) then [k] + sorted
    else [sorted[0]] + InsertPage(k, sorted[1..])
  }

  function SortPages(list: seq<Key>): (r: seq<Key>)
    ensures forall j :: j in r <==> j in list
  {
    if list == [] then [] else InsertPage(list[0], SortPages(list[1..]))
  }

  predicate Rising(s: seq<Key>) {
    forall i, j :: 0 <= i < j < |s| ==> PageRank(s[i]) < PageRank(s[j])
  }

  predicate PagesOfOne(s: seq<Key>, id: Uuid) {
    forall k :: k in s ==> k.PageKey? && k.id == id
  }

  lemma {:induction false} InsertRises(k: Key, sorted: seq<Key>)
    requires Rising(sorted) && forall j :: j in sorted ==> PageRank(j) != PageRank(k)
    ensures Rising(InsertPage(k, sorted))
  {
    hide PageRank;
    if sorted != [] && PageRank(sorted[0]) < PageRank(k) {
      InsertRises(k, sorted[1..]);
      var r := InsertPage(k, sorted[1..]);
      forall j | 0 <= j < |r| ensures PageRank(sorted[0]) < PageRank(r[j]) {
        assert r[j] in r;
      }
    }
  }

  /** Distinct pages of one transition sort into strictly rising index order. */
  lemma {:induction false} SortRises(list: seq<Key>, id: Uuid)
    requires Distinct(list) && PagesOfOne(list, id)
    ensures Rising(SortPages(list))
  {
    hide PageRank;
    if list != [] {
      SortRises(list[1..], id);
      forall j | j in SortPages(list[1..]) ensures PageRank(j) != PageRank(list[0]) {
        RankIsIndex(j);
        RankIsIndex(list[0]);
        assert j in list[1..];
      }
      InsertRises(list[0], SortPages(list[1..]));
    }
  }

  lemma RankIsIndex(k: Key)
    requires k.PageKey?
    ensures PageRank(k) == k.index
  {
    PageNumber(k.id, k.index);
  }

  /** The stored pages of a transition with index from low up to high, in index order. */
  function PagesIn(kv: Store, id: Uuid, low: nat, high: nat): seq<Page>
    requires WellFormed(kv)
    decreases high - low
  {
    if low >= high then []
    else (if PageKey(id, low) in kv then [kv[PageKey(id, low)].page] else []) + PagesIn(kv, id, low + 1, high)
  }

  /** Above the index of every stored page. */
  ghost function PageBound(keys: set<Key>): nat {
    if keys == {} then 0
    else
      var k :| k in keys;
      var rest := PageBound(keys - {k});
      if k.PageKey? && k.index >= rest then k.index + 1 else rest
  }

  lemma {:induction false} BoundIsAbove(keys: set<Key>, k: Key)
    requires k in keys && k.PageKey?
    ensures k.index < PageBound(keys)
  {
    var j :| j in keys && PageBound(keys) >= PageBound(keys - {j}) && (j.PageKey? ==> PageBound(keys) > j.index);
    if j != k {
      BoundIsAbove(keys - {j}, k);
    }
  }

  /** All stored pages of a transition in index order. */
  ghost function AllPages(kv: Store, id: Uuid): seq<Page>
    requires WellFormed(kv)
  {
    PagesIn(kv, id, 0, PageBound(kv.Keys))
  }

  ghost predicate NoPagesFrom(kv: Store, id: Uuid, n: nat) {
    forall i: nat :: i >= n ==> PageKey(id, i) !in kv
  }

  lemma {:induction false} PagesInNone(kv: Store, id: Uuid, low: nat, high: nat)
    requires WellFormed(kv) && NoPagesFrom(kv, id, low)
    ensures PagesIn(kv, id, low, high) == []
    decreases high - low
  {
    if low < high {
      PagesInNone(kv, id, low + 1, high);
    }
  }

  lemma {:induction false} PagesInSplit(kv: Store, id: Uuid, low: nat, mid: nat, high: nat)
    requires WellFormed(kv) && low <= mid <= high
    ensures PagesIn(kv, id, low, high) == PagesIn(kv, id, low, mid) + PagesIn(kv, id, mid, high)
    decreases mid - low
  {
    if low < mid {
      PagesInSplit(kv, id, low + 1, mid, high);
    }
  }

  /** Any bound above the stored pages gives the same pages. */
  lemma AnyBound(kv: Store, id: Uuid, low: nat, bound: nat, other: nat)
    requires WellFormed(kv) && NoPagesFrom(kv, id, bound) && NoPagesFrom(kv, id, other)
    requires low <= bound && low <= other
    ensures PagesIn(kv, id, low, bound) == PagesIn(kv, id, low, other)
  {
    if bound <= other {
      PagesInSplit(kv, id, low, bound, other);
      PagesInNone(kv, id, bound, other);
    } else {
      PagesInSplit(kv, id, low, other, bound);
      PagesInNone(kv, id, other, bound);
    }
  }

  lemma NoPagesPastBound(kv: Store, id: Uuid)
    ensures NoPagesFrom(kv, id, PageBound(kv.Keys))
  {
    forall i: nat | i >= PageBound(kv.Keys) ensures PageKey(id, i) !in kv {
      if PageKey(id, i) in kv {
        BoundIsAbove(kv.Keys, PageKey(id, i));
      }
    }
  }

  function Fetch(kv: Store, keys: seq<Key>): seq<Page>
    requires WellFormed(kv) && forall k :: k in keys ==> k in kv && k.PageKey?
  {
    if keys == [] then [] else [kv[keys[0]].page] + Fetch(kv, keys[1..])
  }

  /** Rising page keys that hold every stored page from low up to high. */
  predicate LinedUp(kv: Store, id: Uuid, keys: seq<Key>, low: nat, high: nat) {
    && (forall i :: 0 <= i < |keys| ==> keys[i].PageKey? && keys[i].id == id && keys[i] in kv)
    && (forall i :: 0 <= i < |keys| ==> low <= keys[i].index < high)
    && (forall i, j :: 0 <= i < j < |keys| ==> keys[i].index < keys[j].index)
    && (forall i: nat :: low <= i < high && PageKey(id, i) in kv ==> PageKey(id, i) in keys)
  }

  lemma {:induction false} LinedUpFetches(kv: Store, id: Uuid, keys: seq<Key>, low: nat, high: nat)
    requires WellFormed(kv) && low <= high && LinedUp(kv, id, keys, low, high)
    ensures Fetch(kv, keys) == PagesIn(kv, id, low, high)
    decreases high - low
  {
    hide WellFormed;
    if low == high {
    } else if keys != [] && keys[0].index == low {
      var rest := keys[1..];
      assert keys[0] in keys;
      assert keys[0] == PageKey(id, low);
      assert LinedUp(kv, id, rest, low + 1, high) by {
        assert forall i :: 0 <= i < |rest| ==> rest[i] == keys[i + 1];
      }
      LinedUpFetches(kv, id, rest, low + 1, high);
    } else {
      assert keys != [] ==> keys[0] in keys;
      assert PageKey(id, low) !in keys;
      LinedUpFetches(kv, id, keys, low + 1, high);
    }
  }

  /** Whatever the text order makes of page numbers, the sorted scan yields the pages by index. */
  lemma ScanYieldsPages(kv: Store, id: Uuid, closed: bool)
    requires WellFormed(kv) && IsUuid(id)
    ensures var keys := SortPages(ScanKeys(kv, PagesOf(id), closed));
            && (forall k :: k in keys ==> k in kv && k.PageKey?)
            && Fetch(kv, keys) == AllPages(kv, id)
  {
    hide ScanKeys, PageRank, ValidKey, Matches, PageBound, IsUuid;
    ScanListsFamily(kv, PagesOf(id), closed);
    var listed := ScanKeys(kv, PagesOf(id), closed);
    assert PagesOfOne(listed, id);
    SortRises(listed, id);
    var keys := SortPages(listed);
    var bound := PageBound(kv.Keys);
    assert LinedUp(kv, id, keys, 0, bound) by {
      forall i | 0 <= i < |keys|
        ensures keys[i] in kv && keys[i].PageKey? && keys[i].id == id && keys[i].index < bound
      {
        assert keys[i] in keys;
        BoundIsAbove(kv.Keys, keys[i]);
      }
      forall i, j | 0 <= i < j < |keys| ensures keys[i].index < keys[j].index {
        assert keys[i] in keys && keys[j] in keys;
        RankIsIndex(keys[i]);
        RankIsIndex(keys[j]);
      }
    }
    LinedUpFetches(kv, id, keys, 0, bound);
  }

  // What the store holds after a write, and what a read answers ----------------------------------

  function PutPages(kv: Store, pages: seq<Page>): Store {
    if pages == [] then kv
    else
      var last := pages[|pages| - 1];
      PutPages(kv, pages[..|pages| - 1])[PageKey(last.id, last.index) := PageValue(last)]
  }

  function Stored(cfg: Config, kv: Store, t: Transition): Store
    requires cfg.Valid()
  {
    var (first, pages) := Prepared(cfg, t);
    PutPages(kv[TransitionKey(t.id) := TransitionValue(first)], pages)
  }

  predicate Numbered(pages: seq<Page>, id: Uuid) {
    forall i :: 0 <= i < |pages| ==> pages[i].id == id && pages[i].index == i
  }

  /** Storing pages overwrites the pages below their count and touches nothing else. */
  lemma {:induction false} PutPagesContents(kv: Store, pages: seq<Page>, id: Uuid)
    requires WellFormed(kv) && IsUuid(id) && Numbered(pages, id)
    ensures var kv' := PutPages(kv, pages);
            && WellFormed(kv')
            && (forall k :: k in kv' <==> k in kv || (k.PageKey? && k.id == id && k.index < |pages|))
            && (forall k :: k in kv' ==>
                  kv'[k] == if k.PageKey? && k.id == id && k.index < |pages| then PageValue(pages[k.index]) else kv[k])
  {
    hide IsUuid;
    if pages != [] {
      PutPagesContents(kv, pages[..|pages| - 1], id);
    }
  }

  lemma {:induction false} PagesAfterPut(kv: Store, pages: seq<Page>, id: Uuid, low: nat, high: nat)
    requires WellFormed(kv) && IsUuid(id) && Numbered(pages, id) && WellFormed(PutPages(kv, pages))
    requires low <= |pages| <= high
    ensures PagesIn(PutPages(kv, pages), id, low, high) == pages[low..] + PagesIn(kv, id, |pages|, high)
    decreases high - low
  {
    hide PutPages, WellFormed, IsUuid;
    PutPagesContents(kv, pages, id);
    if low < |pages| {
      PagesAfterPut(kv, pages, id, low + 1, high);
      assert pages[low..] == [pages[low]] + pages[low + 1..];
    } else {
      PagesPastPut(kv, pages, id, low, high);
    }
  }

  lemma {:induction false} PagesPastPut(kv: Store, pages: seq<Page>, id: Uuid, low: nat, high: nat)
    requires WellFormed(kv) && IsUuid(id) && Numbered(pages, id) && WellFormed(PutPages(kv, pages))
    requires |pages| <= low
    ensures PagesIn(PutPages(kv, pages), id, low, high) == PagesIn(kv, id, low, high)
    decreases high - low
  {
    hide PutPages, WellFormed, IsUuid;
    PutPagesContents(kv, pages, id);
    if low < high {
      PagesPastPut(kv, pages, id, low + 1, high);
    }
  }

  /** What a read of a transition answers: its first page with every stored page appended. */
  ghost function Answer(cfg: Config, kv: Store, id: Uuid): (r: Option<Transition>)
    requires WellFormed(kv)
    ensures r.Some? ==> r.value.id == id
  {
    if TransitionKey(id) !in kv then None
    else
      var first := kv[TransitionKey(id)].transition;
      if cfg.sizeChecks then Some(first.(lists := Join(first.lists, JoinPages(AllPages(kv, id))))) else Some(first)
  }

  /** Pages left over by an earlier, longer version of the transition. */
  ghost function Leftover(cfg: Config, kv: Store, id: Uuid, n: nat): Lists
    requires WellFormed(kv)
  {
    if cfg.sizeChecks then JoinPages(PagesIn(kv, id, n, PageBound(kv.Keys))) else NoLists
  }

  lemma {:induction false} JoinPagesConcat(a: seq<Page>, b: seq<Page>)
    ensures JoinPages(a + b) == Join(JoinPages(a), JoinPages(b))
  {
    if a == [] {
      assert a + b == b;
      JoinAssociates(JoinPages(b), NoLists, NoLists);
    } else {
      assert (a + b)[1..] == a[1..] + b;
      JoinPagesConcat(a[1..], b);
      JoinAssociates(a[0].lists, JoinPages(a[1..]), JoinPages(b));
    }
  }

  /** All pages after new ones were put: the new ones, then what was stored beyond them. */
  lemma AllPagesAfterPut(kv: Store, pages: seq<Page>, id: Uuid)
    requires WellFormed(kv) && IsUuid(id) && Numbered(pages, id)
    ensures WellFormed(PutPages(kv, pages))
    ensures AllPages(PutPages(kv, pages), id) == pages + PagesIn(kv, id, |pages|, PageBound(kv.Keys))
  {
    hide WellFormed, PutPages, IsUuid;
    PutPagesContents(kv, pages, id);
    var kv' := PutPages(kv, pages);
    var before, after := PageBound(kv.Keys), PageBound(kv'.Keys);
    var bound := Max(|pages|, Max(before, after));
    NoPagesPastBound(kv, id);
    NoPagesPastBound(kv', id);
    AnyBound(kv', id, 0, after, bound);
    PagesAfterPut(kv, pages, id, 0, bound);
    assert pages[0..] == pages;
    if |pages| <= before {
      AnyBound(kv, id, |pages|, before, bound);
    } else {
      PagesInNone(kv, id, |pages|, bound);
      PagesInNone(kv, id, |pages|, before);
    }
  }

  lemma StoredIsWellFormed(cfg: Config, kv: Store, t: Transition)
    requires cfg.Valid() && WellFormed(kv) && IsUuid(t.id)
    ensures WellFormed(Stored(cfg, kv, t))
  {
    hide IsUuid, Prepared, PutPages;
    PreparedReassembles(cfg, t);
    var (first, pages) := Prepared(cfg, t);
    PutPagesContents(kv[TransitionKey(t.id) := TransitionValue(first)], pages, t.id);
  }

  /** Putting a first page changes no later page. */
  lemma {:induction false} FirstPageApart(kv: Store, v: Transition, low: nat, high: nat)
    requires WellFormed(kv) && IsUuid(v.id)
    ensures WellFormed(kv[TransitionKey(v.id) := TransitionValue(v)])
    ensures PagesIn(kv[TransitionKey(v.id) := TransitionValue(v)], v.id, low, high) == PagesIn(kv, v.id, low, high)
    decreases high - low
  {
    if low < high {
      FirstPageApart(kv, v, low + 1, high);
    }
  }

  /**
   * Reading back a stored transition gives every field, the kept lists, and after them whatever
   * pages of an earlier version lie beyond the ones just written.
   */
  lemma StoreThenRead(cfg: Config, kv: Store, t: Transition)
    requires cfg.Valid() && WellFormed(kv) && IsUuid(t.id)
    ensures WellFormed(Stored(cfg, kv, t))
    ensures Answer(cfg, Stored(cfg, kv, t), t.id)
            == Some(t.(lists := Join(Kept(cfg, t), Leftover(cfg, kv, t.id, |Prepared(cfg, t).1|))))
  {
    hide Prepared, PutPages, Kept, IsUuid, PageBound, PagesIn;
    PreparedReassembles(cfg, t);
    var (first, pages) := Prepared(cfg, t);
    var mid := kv[TransitionKey(t.id) := TransitionValue(first)];
    FirstPageApart(kv, first, 0, 0);
    PutPagesContents(mid, pages, t.id);
    if cfg.sizeChecks {
      hide WellFormed, JoinPages;
      AllPagesAfterPut(mid, pages, t.id);
      var before, after := PageBound(kv.Keys), PageBound(mid.Keys);
      FirstPageApart(kv, first, |pages|, after);
      LeftoverBound(kv, t.id, |pages|, after, mid);
      JoinPagesConcat(pages, PagesIn(kv, t.id, |pages|, before));
      JoinAssociates(first.lists, JoinPages(pages), JoinPages(PagesIn(kv, t.id, |pages|, before)));
    } else {
      JoinAssociates(first.lists, NoLists, NoLists);
      JoinAssociates(Kept(cfg, t), NoLists, NoLists);
    }
  }

  lemma LeftoverBound(kv: Store, id: Uuid, n: nat, other: nat, mid: Store)
    requires WellFormed(kv) && other == PageBound(mid.Keys)
    requires forall k :: k in kv ==> k in mid
    ensures PagesIn(kv, id, n, other) == PagesIn(kv, id, n, PageBound(kv.Keys))
  {
    hide WellFormed;
    var bound := PageBound(kv.Keys);
    NoPagesPastBound(kv, id);
    NoPagesPastBound(mid, id);
    assert NoPagesFrom(kv, id, other);
    if n <= bound && n <= other {
      AnyBound(kv, id, n, other, bound);
    } else {
      PagesInNone(kv, id, n, other);
      PagesInNone(kv, id, n, bound);
    }
  }

  /**
   * The round trip onto fresh keys. Locations, task ids and every other field come back exactly,
   * whatever the number of pages; the task reports, as shortened, come back exactly unless the
   * halved window loses some, and then the first windowful does.
   */
  lemma RoundTrip(cfg: Config, kv: Store, t: Transition)
    requires cfg.Valid() && WellFormed(kv) && IsUuid(t.id) && NoPagesFrom(kv, t.id, 0)
    ensures WellFormed(Stored(cfg, kv, t))
    ensures Answer(cfg, Stored(cfg, kv, t), t.id).Some?
    ensures var back := Answer(cfg, Stored(cfg, kv, t), t.id).value;
            && back.header == t.header && back.id == t.id
            && back.lists.locations == t.lists.locations
            && back.lists.taskIDs == t.lists.taskIDs
            && (back.lists.tasks == Messages(cfg, t) <==> !LosesTasks(cfg, t))
            && (LosesTasks(cfg, t) ==> back.lists.tasks == Messages(cfg, t)[..cfg.pageSize / 2 + 1])
  {
    hide Prepared, Stored, WellFormed, Answer, Messages, IsUuid;
    StoreThenRead(cfg, kv, t);
    PagesInNone(kv, t.id, |Prepared(cfg, t).1|, PageBound(kv.Keys));
    JoinAssociates(Kept(cfg, t), NoLists, NoLists);
    KeptExactly(cfg, t);
  }

  // Test-and-set -------------------------------------------------------------------------------

  predicate TasPasses(kv: Store, id: Uuid, test: Transition) {
    TransitionKey(id) in kv && kv[TransitionKey(id)] == TransitionValue(test)
  }

  /** The later pages are written whether or not the first page was. */
  function Swapped(cfg: Config, kv: Store, t: Transition, test: Transition): Store
    requires cfg.Valid()
  {
    var (first, pages) := Prepared(cfg, t);
    PutPages(if TasPasses(kv, t.id, test) then kv[TransitionKey(t.id) := TransitionValue(first)] else kv, pages)
  }

  lemma JoinCancels(a: Lists, b: Lists, b': Lists, c: Lists)
    ensures Join(a, Join(b, c)) == Join(a, Join(b', c)) <==> b == b'
  {
    if Join(a, Join(b, c)) == Join(a, Join(b', c)) {
      Cancels(a.tasks, b.tasks, b'.tasks, c.tasks);
      Cancels(a.locations, b.locations, b'.locations, c.locations);
      Cancels(a.taskIDs, b.taskIDs, b'.taskIDs, c.taskIDs);
    }
  }

  lemma Cancels<T>(a: seq<T>, b: seq<T>, b': seq<T>, c: seq<T>)
    requires a + (b + c) == a + (b' + c)
    ensures b == b'
  {
    assert (a + (b + c))[|a|..|a| + |b|] == b;
    assert (a + (b' + c))[|a|..|a| + |b'|] == b';
  }

  /** The lists of the stored pages below n. */
  function Covered(kv: Store, id: Uuid, n: nat): Lists
    requires WellFormed(kv)
  {
    JoinPages(PagesIn(kv, id, 0, n))
  }

  /** What a read answers, seen as the pages below n and the pages from n on. */
  lemma AnswerSplit(cfg: Config, kv: Store, id: Uuid, n: nat)
    requires WellFormed(kv) && TransitionKey(id) in kv && (cfg.sizeChecks || n == 0)
    ensures var first := kv[TransitionKey(id)].transition;
            Answer(cfg, kv, id) == Some(first.(lists :=
                Join(first.lists, Join(Covered(kv, id, n), Leftover(cfg, kv, id, n)))))
  {
    hide JoinPages, PageBound, PagesIn;
    var first := kv[TransitionKey(id)].transition;
    hide WellFormed;
    if cfg.sizeChecks {
      var bound := PageBound(kv.Keys);
      NoPagesPastBound(kv, id);
      if n <= bound {
        PagesInSplit(kv, id, 0, n, bound);
        JoinPagesConcat(PagesIn(kv, id, 0, n), PagesIn(kv, id, n, bound));
      } else {
        AnyBound(kv, id, 0, bound, n);
        PagesInNone(kv, id, n, bound);
        EmptyJoin();
        JoinAssociates(Covered(kv, id, n), NoLists, NoLists);
      }
    } else {
      PagesInEmpty(kv, id);
      EmptyJoin();
      JoinAssociates(first.lists, NoLists, NoLists);
      JoinAssociates(NoLists, NoLists, NoLists);
    }
  }

  lemma PagesInEmpty(kv: Store, id: Uuid)
    requires WellFormed(kv)
    ensures PagesIn(kv, id, 0, 0) == []
  {
  }

  lemma EmptyJoin()
    ensures JoinPages([]) == NoLists
  {
  }

  /**
   * A test-and-set that passes is a store. One that fails leaves the first page, but whoever reads
   * the record gets the refused version's later pages in place of the stored ones below their
   * count; so the answer is the earlier one exactly when those pages hold the same lists.
   */
  lemma TestAndSetExactly(cfg: Config, kv: Store, t: Transition, test: Transition)
    requires cfg.Valid() && WellFormed(kv) && IsUuid(t.id)
    ensures WellFormed(Swapped(cfg, kv, t, test))
    ensures TasPasses(kv, t.id, test) ==> Swapped(cfg, kv, t, test) == Stored(cfg, kv, t)
    ensures !TasPasses(kv, t.id, test) && TransitionKey(t.id) !in kv ==>
        Answer(cfg, Swapped(cfg, kv, t, test), t.id) == None
    ensures !TasPasses(kv, t.id, test) && TransitionKey(t.id) in kv ==>
              var first := kv[TransitionKey(t.id)].transition;
              var pages := Prepared(cfg, t).1;
              var after := Answer(cfg, Swapped(cfg, kv, t, test), t.id);
              && after == Some(first.(lists :=
                  Join(first.lists, Join(JoinPages(pages), Leftover(cfg, kv, t.id, |pages|)))))
              && (after == Answer(cfg, kv, t.id) <==> JoinPages(pages) == Covered(kv, t.id, |pages|))
  {
    hide Prepared, PutPages, IsUuid, Stored, PagesIn, PageBound, JoinPages;
    PreparedReassembles(cfg, t);
    var (first, pages) := Prepared(cfg, t);
    if TasPasses(kv, t.id, test) {
      SwapIsStore(cfg, kv, t, test);
      StoredIsWellFormed(cfg, kv, t);
    } else {
      PutPagesContents(kv, pages, t.id);
      if TransitionKey(t.id) in kv {
        FailedSwapAnswer(cfg, kv, t.id, pages);
      }
    }
  }

  lemma SwapIsStore(cfg: Config, kv: Store, t: Transition, test: Transition)
    requires cfg.Valid() && TasPasses(kv, t.id, test)
    ensures Swapped(cfg, kv, t, test) == Stored(cfg, kv, t)
  {
  }

  /** Later pages put under an unchanged first page. */
  lemma FailedSwapAnswer(cfg: Config, kv: Store, id: Uuid, pages: seq<Page>)
    requires WellFormed(kv) && IsUuid(id) && Numbered(pages, id) && TransitionKey(id) in kv
    requires !cfg.sizeChecks ==> pages == []
    ensures var kv' := PutPages(kv, pages);
            var first := kv[TransitionKey(id)].transition;
            && WellFormed(kv')
            && Answer(cfg, kv', id) == Some(first.(lists :=
                Join(first.lists, Join(JoinPages(pages), Leftover(cfg, kv, id, |pages|)))))
            && (Answer(cfg, kv', id) == Answer(cfg, kv, id) <==> JoinPages(pages) == Covered(kv, id, |pages|))
  {
    hide PutPages, IsUuid, PagesIn, PageBound, JoinPages;
    var kv' := PutPages(kv, pages);
    var first := kv[TransitionKey(id)].transition;
    PutPagesContents(kv, pages, id);
    AnswerSplit(cfg, kv, id, |pages|);
    hide WellFormed, Covered;
    JoinCancels(first.lists, JoinPages(pages), Covered(kv, id, |pages|), Leftover(cfg, kv, id, |pages|));
    if cfg.sizeChecks {
      AllPagesAfterPut(kv, pages, id);
      JoinPagesConcat(pages, PagesIn(kv, id, |pages|, PageBound(kv.Keys)));
    } else {
      EmptyJoin();
      JoinAssociates(first.lists, NoLists, NoLists);
      JoinAssociates(NoLists, NoLists, NoLists);
    }
  }

  // Removal --------------------------------------------------------------------------------------

  predicate PartOf(k: Key, id: Uuid) {
    k == TransitionKey(id) || (k.PageKey? && k.id == id)
  }

  function Without(kv: Store, gone: set<Key>): Store {
    map k | k in kv && k !in gone :: kv[k]
  }

  /** The pages found by a scan stand for all the transition's page keys. */
  lemma {:induction false} PagesInMembers(kv: Store, id: Uuid, low: nat, high: nat)
    requires WellFormed(kv)
    ensures forall p :: p in PagesIn(kv, id, low, high) ==> PageKey(id, p.index) in kv && low <= p.index < high
    ensures forall i: nat :: low <= i < high && PageKey(id, i) in kv ==>
        kv[PageKey(id, i)].page in PagesIn(kv, id, low, high)
    decreases high - low
  {
    if low < high {
      PagesInMembers(kv, id, low + 1, high);
    }
  }
}
