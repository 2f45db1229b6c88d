/** Small stores on which the storage layer answers something other than what was written last. */
module StoreCases {
  import opened Wrappers
  import opened PowerTypes
  import opened Records
  import opened KeySpace
  import opened Truncation
  import opened Paging
  import opened EtcdStore

  const ID: Uuid := "000000000000000000000000000000000000"

  const HEADER := Header(OpOn, 5, 0, 0, 0, "in-progress", false, TaskCounts(0, 0, 0, 0, 0, 0))

  function With(locations: seq<Location>): Transition {
    Transition(ID, HEADER, Lists([], locations, []))
  }

  /** One location to a page; a record is as long as its list of locations, and two are too many for one entry. */
  function Small(): Config {
    Config(true, 1, 130, 2, (t: Transition) => |t.lists.locations|, false)
  }

  lemma IdIsUuid()
    ensures IsUuid(ID)
  {
  }

  /** Two locations make a first page and one later page. */
  lemma TwoPages(a: Location, b: Location)
    ensures Prepared(Small(), With([a, b])) == (With([a]), [Page(ID, 0, Lists([], [b], []))])
  {
    var t := With([a, b]);
    var s := [a, b];
    assert Truncated(Small(), t) == t;
    assert Windows(s, 2, 1, 1) == [];
    assert Windows(s, 1, 1, 1) == [s[1..2]] + Windows(s, 2, 1, 1);
    assert Windows(s, 0, 1, 1) == [s[0..1]] + Windows(s, 1, 1, 1);
    assert s[0..1] == [a] && s[1..2] == [b];
    assert Cut(s, 1, 1) == [[a], [b]];
    var cut := CutAll(t.lists, 1, 1);
    assert cut.Count() == 2;
    assert LaterPages(ID, cut) == [Page(ID, 0, cut.At(1))];
  }

  lemma OnePage(a: Location)
    ensures Prepared(Small(), With([a])) == (With([a]), [])
  {
    assert Truncated(Small(), With([a])) == With([a]);
  }

  lemma JoinOne(p: Page)
    ensures JoinPages([p]) == p.lists
  {
    JoinAssociates(p.lists, NoLists, NoLists);
    assert [p][1..] == [];
  }

  /**
   * A record of one location, and a refused test-and-set of one with two: its second location shows up in the
   * answer.
   */
  lemma FailedSwapShowsNewPage(a: Location, b: Location, c: Location)
    requires a != c
    ensures var kv: Store := map[TransitionKey(ID) := TransitionValue(With([c]))];
            && WellFormed(kv) && !TasPasses(kv, ID, With([a]))
            && Answer(Small(), kv, ID) == Some(With([c]))
            && WellFormed(Swapped(Small(), kv, With([a, b]), With([a])))
            && Answer(Small(), Swapped(Small(), kv, With([a, b]), With([a])), ID) == Some(With([c, b]))
  {
    hide JoinPages, PageBound, Prepared, IsUuid;
    IdIsUuid();
    var kv: Store := map[TransitionKey(ID) := TransitionValue(With([c]))];
    assert WellFormed(kv);
    TwoPages(a, b);
    assert With([c]).lists.locations[0] != With([a]).lists.locations[0];
    TestAndSetExactly(Small(), kv, With([a, b]), With([a]));
    PagesInNone(kv, ID, 1, PageBound(kv.Keys));
    PagesInNone(kv, ID, 0, PageBound(kv.Keys));
    EmptyJoin();
    JoinOne(Page(ID, 0, Lists([], [b], [])));
    assert Join(With([c]).lists, Join(Lists([], [b], []), NoLists)) == With([c, b]).lists;
    JoinAssociates(With([c]).lists, NoLists, NoLists);
  }

  /** A record of two locations overwritten by one of a single location: the earlier second location is still read. */
  lemma LeftoverPageIsRead(a: Location, b: Location, c: Location)
    ensures var kv := Stored(Small(), map[], With([a, b]));
            && WellFormed(kv) && WellFormed(Stored(Small(), kv, With([c])))
            && Answer(Small(), Stored(Small(), kv, With([c])), ID) == Some(With([c, b]))
  {
    hide JoinPages, PageBound, Prepared, IsUuid, PutPages;
    IdIsUuid();
    var empty: Store := map[];
    var kv := Stored(Small(), empty, With([a, b]));
    StoredIsWellFormed(Small(), empty, With([a, b]));
    TwoPages(a, b);
    OnePage(c);
    StoreThenRead(Small(), kv, With([c]));
    var page := Page(ID, 0, Lists([], [b], []));
    var mid: Store := empty[TransitionKey(ID) := TransitionValue(With([a]))];
    assert WellFormed(mid);
    AllPagesAfterPut(mid, [page], ID);
    PagesInNone(mid, ID, 1, PageBound(mid.Keys));
    assert AllPages(kv, ID) == [page];
    JoinOne(page);
    assert Kept(Small(), With([c])) == With([c]).lists;
    assert Join(With([c]).lists, page.lists) == With([c, b]).lists;
  }

  /** Five reports to a page; a record is as long as its list of reports, and four are too many for one entry. */
  function Tight(): Config {
    Config(true, 5, 130, 4, (t: Transition) => |t.lists.tasks|, false)
  }

  /** A record of four reports stored on an empty store: the halved window keeps three. */
  lemma HalvedWindowLosesReport(a: TaskResp, b: TaskResp, c: TaskResp, d: TaskResp)
    ensures var t := Transition(ID, HEADER, Lists([a, b, c, d], [], []));
            && WellFormed(Stored(Tight(), map[], t))
            && Answer(Tight(), Stored(Tight(), map[], t), ID) == Some(Transition(ID, HEADER, Lists([a, b, c], [], [])))
  {
    hide IsUuid, Stored, Answer, WellFormed;
    IdIsUuid();
    var t := Transition(ID, HEADER, Lists([a, b, c, d], [], []));
    assert Messages(Tight(), t) == [a, b, c, d];
    assert LosesTasks(Tight(), t);
    EmptyIsWellFormed();
    RoundTrip(Tight(), map[], t);
    assert [a, b, c, d][..3] == [a, b, c];
  }

  lemma EmptyIsWellFormed()
    ensures WellFormed(map[])
  {
  }
}
