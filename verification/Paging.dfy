/** Cutting a transition's lists into pages. */
module Paging {
  import opened Records

  function Min(a: int, b: int): int {
    if a < b then a else b
  }

  function Max(a: int, b: int): int {
    if a < b then b else a
  }

  /** The windows of a list from position i on, one every stride. */
  function Windows<T>(s: seq<T>, i: nat, stride: nat, window: nat): seq<seq<T>>
    requires stride > 0
    decreases |s| - i
  {
    if i >= |s| then [] else [s[i..Min(i + window, |s|)]] + Windows(s, i + stride, stride, window)
  }

  /** The pages of a list: the list itself when it fits, its windows otherwise. */
  function Cut<T>(s: seq<T>, stride: nat, window: nat): seq<seq<T>>
    requires stride > 0
  {
    if |s| <= window then [s] else Windows(s, 0, stride, window)
  }

  function Flat<T>(pages: seq<seq<T>>): seq<T> {
    if pages == [] then [] else pages[0] + Flat(pages[1..])
  }

  lemma WindowsStep<T>(s: seq<T>, i: nat, stride: nat, window: nat)
    requires stride > 0 && i < |s|
    ensures Windows(s, i, stride, window) == [s[i..Min(i + window, |s|)]] + Windows(s, i + stride, stride, window)
  {
  }

  lemma WindowsEnd<T>(s: seq<T>, i: nat, stride: nat, window: nat)
    requires stride > 0 && i >= |s|
    ensures Windows(s, i, stride, window) == []
  {
  }

  method CutPages<T>(s: seq<T>, stride: nat, window: nat) returns (pages: seq<seq<T>>)
    requires stride > 0
    ensures pages == Cut(s, stride, window)
  {
    hide Windows;
    pages := [];
    if |s| > window {
      var i := 0;
      while i < |s|
        invariant pages + Windows(s, i, stride, window) == Windows(s, 0, stride, window)
        decreases |s| - i
      {
        var end := i + window;
        if end > |s| {
          end := |s|;
        }
        WindowsStep(s, i, stride, window);
        pages := pages + [s[i..end]];
        i := i + stride;
      }
      WindowsEnd(s, i, stride, window);
    } else {
      pages := pages + [s];
    }
  }

  lemma {:induction false} WindowsCoverList<T>(s: seq<T>, i: nat, stride: nat)
    requires stride > 0 && i <= |s|
    ensures Flat(Windows(s, i, stride, stride)) == s[i..]
    decreases |s| - i
  {
    if i < |s| {
      if i + stride <= |s| {
        WindowsCoverList(s, i + stride, stride);
        assert s[i..i + stride] + s[i + stride..] == s[i..];
      } else {
        assert Windows(s, i + stride, stride, stride) == [];
      }
    }
  }

  /** When window and stride agree, the pages put together are the list. */
  lemma CutCoversList<T>(s: seq<T>, stride: nat)
    requires stride > 0
    ensures Flat(Cut(s, stride, stride)) == s
  {
    if |s| > stride {
      WindowsCoverList(s, 0, stride);
    }
  }

  /** When the list is no longer than the stride, there is one page and it ends at the window. */
  lemma CutStopsAtWindow<T>(s: seq<T>, stride: nat, window: nat)
    requires 0 < window <= stride && |s| <= stride
    ensures Cut(s, stride, window) == [s[..Min(window, |s|)]]
    ensures Flat(Cut(s, stride, window)) == s[..Min(window, |s|)]
  {
    if |s| > window {
      assert Windows(s, stride, stride, window) == [];
    } else {
      assert s[..|s|] == s;
    }
  }

  lemma {:induction false} WindowsAreShort<T>(s: seq<T>, i: nat, stride: nat, window: nat, n: nat)
    requires stride > 0 && n < |Windows(s, i, stride, window)|
    ensures |Windows(s, i, stride, window)[n]| <= window
    decreases |s| - i
  {
    if n > 0 {
      WindowsAreShort(s, i + stride, stride, window, n - 1);
    }
  }

  /** No page is longer than the window. */
  lemma CutIsShort<T>(s: seq<T>, stride: nat, window: nat, n: nat)
    requires stride > 0
    ensures |PageOf(Cut(s, stride, window), n)| <= window
  {
    if |s| > window && n < |Cut(s, stride, window)| {
      WindowsAreShort(s, 0, stride, window, n);
    }
  }

  function PageOf<T>(pages: seq<seq<T>>, i: nat): seq<T> {
    if i < |pages| then pages[i] else []
  }

  datatype CutLists = CutLists(tasks: seq<seq<TaskResp>>, locations: seq<seq<Location>>, taskIDs: seq<seq<Uuid>>) {
    function Count(): nat {
      Max(|tasks|, Max(|locations|, |taskIDs|))
    }

    function At(i: nat): Lists {
      Lists(PageOf(tasks, i), PageOf(locations, i), PageOf(taskIDs, i))
    }
  }

  /** Tasks are cut with the configured page size as stride, the other lists with the window. */
  function CutAll(lists: Lists, stride: nat, window: nat): CutLists
    requires stride > 0 && window > 0
  {
    CutLists(Cut(lists.tasks, stride, window), Cut(lists.locations, window, window), Cut(lists.taskIDs, window, window))
  }

  /** The pages after the first; page i holds the cut's part i + 1. */
  function LaterPages(id: Uuid, cut: CutLists): seq<Page> {
    seq(Max(cut.Count() - 1, 0), (i: nat) => Page(id, i, cut.At(i + 1)))
  }

  predicate Fits(lists: Lists, window: nat) {
    |lists.tasks| <= window && |lists.locations| <= window && |lists.taskIDs| <= window
  }

  /** The first page of a transition and the later ones. */
  function Broken(t: Transition, stride: nat, window: nat): (Transition, seq<Page>)
    requires stride > 0 && window > 0
  {
    if Fits(t.lists, window) then (t, [])
    else
      var cut := CutAll(t.lists, stride, window);
      (t.(lists := cut.At(0)), LaterPages(t.id, cut))
  }

  /** Builds the page records and then fills in each list, as far as its own pages reach. */
  method FillPages(id: Uuid, cut: CutLists) returns (pages: seq<Page>)
    ensures pages == LaterPages(id, cut)
  {
    var pageCount := cut.Count();
    pages := [];
    var i := 1;
    while i < pageCount
      invariant 1 <= i <= Max(pageCount, 1)
      invariant |pages| == i - 1
      invariant forall k :: 0 <= k < i - 1 ==> pages[k] == Page(id, k, NoLists)
    {
      pages := pages + [Page(id, i - 1, NoLists)];
      i := i + 1;
    }
    i := 1;
    while i < |cut.tasks|
      invariant 1 <= i <= Max(|cut.tasks|, 1)
      invariant |pages| == Max(pageCount - 1, 0)
      invariant forall k :: 0 <= k < |pages| ==>
        pages[k] == Page(id, k, Lists(if k < i - 1 then cut.tasks[k + 1] else [], [], []))
    {
      pages := pages[i - 1 := pages[i - 1].(lists := pages[i - 1].lists.(tasks := cut.tasks[i]))];
      i := i + 1;
    }
    i := 1;
    while i < |cut.locations|
      invariant 1 <= i <= Max(|cut.locations|, 1)
      invariant |pages| == Max(pageCount - 1, 0)
      invariant forall k :: 0 <= k < |pages| ==>
        pages[k] == Page(id, k, Lists(PageOf(cut.tasks, k + 1), if k < i - 1 then cut.locations[k + 1] else [], []))
    {
      pages := pages[i - 1 := pages[i - 1].(lists := pages[i - 1].lists.(locations := cut.locations[i]))];
      i := i + 1;
    }
    i := 1;
    while i < |cut.taskIDs|
      invariant 1 <= i <= Max(|cut.taskIDs|, 1)
      invariant |pages| == Max(pageCount - 1, 0)
      invariant forall k :: 0 <= k < |pages| ==>
        pages[k] == Page(id, k, Lists(PageOf(cut.tasks, k + 1), PageOf(cut.locations, k + 1),
                                      if k < i - 1 then cut.taskIDs[k + 1] else []))
    {
      pages := pages[i - 1 := pages[i - 1].(lists := pages[i - 1].lists.(taskIDs := cut.taskIDs[i]))];
      i := i + 1;
    }
    assert forall k :: 0 <= k < |pages| ==> pages[k] == Page(id, k, cut.At(k + 1));
  }

  method BreakIntoPages(t: Transition, stride: nat, window: nat) returns (first: Transition, pages: seq<Page>)
    requires stride > 0 && window > 0
    ensures (first, pages) == Broken(t, stride, window)
  {
    if Fits(t.lists, window) {
      return t, [];
    }
    var tasks := CutPages(t.lists.tasks, stride, window);
    var locations := CutPages(t.lists.locations, window, window);
    var taskIDs := CutPages(t.lists.taskIDs, window, window);
    var cut := CutLists(tasks, locations, taskIDs);
    first := t.(lists := cut.At(0));
    pages := FillPages(t.id, cut);
  }

  // Putting pages together again ---------------------------------------------------------------

  function JoinPages(pages: seq<Page>): Lists {
    if pages == [] then NoLists else Join(pages[0].lists, JoinPages(pages[1..]))
  }

  function Drop<T>(s: seq<T>, n: nat): seq<T> {
    if n <= |s| then s[n..] else []
  }

  lemma FlatStep<T>(pages: seq<seq<T>>, n: nat)
    ensures Flat(Drop(pages, n)) == PageOf(pages, n) + Flat(Drop(pages, n + 1))
  {
    if n < |pages| {
      assert Drop(pages, n)[1..] == Drop(pages, n + 1);
    }
  }

  lemma FlatNone<T>(pages: seq<seq<T>>, n: nat)
    requires n >= |pages|
    ensures Flat(Drop(pages, n)) == []
  {
  }

  lemma JoinStep(pages: seq<Page>, n: nat)
    requires n < |pages|
    ensures JoinPages(pages[n..]) == Join(pages[n].lists, JoinPages(pages[n + 1..]))
  {
  }

  lemma {:induction false} JoinLater(id: Uuid, cut: CutLists, n: nat)
    requires n <= |LaterPages(id, cut)|
    ensures JoinPages(LaterPages(id, cut)[n..]) ==
            Lists(Flat(Drop(cut.tasks, n + 1)), Flat(Drop(cut.locations, n + 1)), Flat(Drop(cut.taskIDs, n + 1)))
    decreases |LaterPages(id, cut)| - n
  {
    hide Flat, Drop;
    var later := LaterPages(id, cut);
    if n < |later| {
      hide JoinPages;
      JoinLater(id, cut, n + 1);
      JoinStep(later, n);
      FlatStep(cut.tasks, n + 1);
      FlatStep(cut.locations, n + 1);
      FlatStep(cut.taskIDs, n + 1);
    } else {
      FlatNone(cut.tasks, n + 1);
      FlatNone(cut.locations, n + 1);
      FlatNone(cut.taskIDs, n + 1);
    }
  }

  /** Reading the first page and the later ones in order gives each list's own pages put together. */
  lemma PagesReassemble(id: Uuid, cut: CutLists)
    ensures Join(cut.At(0), JoinPages(LaterPages(id, cut))) ==
        Lists(Flat(cut.tasks), Flat(cut.locations), Flat(cut.taskIDs))
  {
    JoinLater(id, cut, 0);
    assert LaterPages(id, cut)[0..] == LaterPages(id, cut);
    FlatStep(cut.tasks, 0);
    FlatStep(cut.locations, 0);
    FlatStep(cut.taskIDs, 0);
    assert Drop(cut.tasks, 0) == cut.tasks && Drop(cut.locations, 0) == cut.locations
        && Drop(cut.taskIDs, 0) == cut.taskIDs;
  }

  /**
   * What comes back from the pages. Locations and task ids come back exactly. Tasks do when the
   * window is the stride or they fit the window; when they are fewer than the stride but more than
   * the window, only the first windowful does.
   */
  lemma BrokenReassembles(t: Transition, stride: nat, window: nat)
    requires 0 < window <= stride
    ensures var (first, pages) := Broken(t, stride, window);
            var back := Join(first.lists, JoinPages(pages));
            && first.id == t.id && first.header == t.header
            && back.locations == t.lists.locations
            && back.taskIDs == t.lists.taskIDs
            && (window == stride || |t.lists.tasks| <= window ==> back.tasks == t.lists.tasks)
            && (window < |t.lists.tasks| <= stride ==> back.tasks == t.lists.tasks[..window])
  {
    if Fits(t.lists, window) {
      JoinAssociates(t.lists, NoLists, NoLists);
    } else {
      PagesReassemble(t.id, CutAll(t.lists, stride, window));
      CutCoversList(t.lists.locations, window);
      CutCoversList(t.lists.taskIDs, window);
      if window == stride {
        CutCoversList(t.lists.tasks, window);
      } else if |t.lists.tasks| <= stride {
        CutStopsAtWindow(t.lists.tasks, stride, window);
        if |t.lists.tasks| <= window {
          assert t.lists.tasks[..|t.lists.tasks|] == t.lists.tasks;
        }
      }
    }
  }

  /** No list of the first page or a later one is longer than the window. */
  lemma BrokenIsShort(t: Transition, stride: nat, window: nat)
    requires stride > 0 && window > 0
    ensures var (first, pages) := Broken(t, stride, window);
            Fits(first.lists, window) && forall i :: 0 <= i < |pages| ==> Fits(pages[i].lists, window)
  {
    if !Fits(t.lists, window) {
      var cut := CutAll(t.lists, stride, window);
      forall i: nat ensures Fits(cut.At(i), window) {
        CutIsShort(t.lists.tasks, stride, window, i);
        CutIsShort(t.lists.locations, window, window, i);
        CutIsShort(t.lists.taskIDs, window, window, i);
      }
    }
  }

  /** Page i of a broken transition is filed under its own id and index. */
  lemma BrokenIndices(t: Transition, stride: nat, window: nat, i: nat)
    requires stride > 0 && window > 0 && i < |Broken(t, stride, window).1|
    ensures Broken(t, stride, window).1[i].id == t.id && Broken(t, stride, window).1[i].index == i
  {
  }
}
