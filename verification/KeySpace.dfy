/**
 * The keys of the etcd store and the range scans over them. Keys compare as text; every record
 * family has its own path segment, and a scan takes the keys between two bounds.
 */
module KeySpace {

  // Decimal text -----------------------------------------------------------------------------

  function Digit(d: nat): char
    requires d < 10
  {
    '0' + d as char
  }

  predicate IsDigit(c: char) {
    '0' <= c <= '9'
  }

  /** A number as text, as %d writes it. */
  function Decimal(n: nat): string {
    if n < 10 then [Digit(n)] else Decimal(n / 10) + [Digit(n % 10)]
  }

  /** The number a text of digits stands for, and 0 for any other text, as Atoi answers. */
  function Number(s: string): int {
    if forall c :: c in s ==> IsDigit(c) then DigitsValue(s) else 0
  }

  function DigitsValue(s: string): int {
    if s == "" then 0 else 10 * DigitsValue(s[..|s| - 1]) + (s[|s| - 1] as int - '0' as int)
  }

  lemma {:induction false} DecimalIsDigits(n: nat)
    ensures Decimal(n) != "" && forall c :: c in Decimal(n) ==> IsDigit(c)
  {
    if n >= 10 {
      DecimalIsDigits(n / 10);
    }
  }

  lemma {:induction false} DecimalValue(n: nat)
    ensures DigitsValue(Decimal(n)) == n
  {
    if n < 10 {
      assert Decimal(n)[..0] == "";
    } else {
      DecimalValue(n / 10);
      assert Decimal(n)[..|Decimal(n)| - 1] == Decimal(n / 10);
    }
  }

  /** A page index survives being written into a key and read back. */
  lemma NumberOfDecimal(n: nat)
    ensures Number(Decimal(n)) == n
  {
    DecimalIsDigits(n);
    DecimalValue(n);
  }

  /** What follows the last slash. */
  function AfterSlash(s: string): string {
    if s == "" || s[|s| - 1] == '/' then "" else AfterSlash(s[..|s| - 1]) + [s[|s| - 1]]
  }

  lemma {:induction false} AfterSlashOf(path: string, tail: string)
    requires '/' !in tail
    ensures AfterSlash(path + "/" + tail) == tail
  {
    var s := path + "/" + tail;
    if tail == "" {
      assert s[|s| - 1] == '/';
    } else {
      assert s[..|s| - 1] == path + "/" + tail[..|tail| - 1];
      AfterSlashOf(path, tail[..|tail| - 1]);
      assert s[|s| - 1] == tail[|tail| - 1];
    }
  }

  // Text order and ranges --------------------------------------------------------------------

  /** Text order: a comes no later than b. */
  predicate AtMost(a: string, b: string) {
    a == "" || (b != "" && (a[0] < b[0] || (a[0] == b[0] && AtMost(a[1..], b[1..]))))
  }

  lemma {:induction false} AtMostIsTotal(a: string, b: string)
    ensures AtMost(a, b) || AtMost(b, a)
  {
    if a != "" && b != "" && a[0] == b[0] {
      AtMostIsTotal(a[1..], b[1..]);
    }
  }

  lemma {:induction false} AtMostIsTransitive(a: string, b: string, c: string)
    requires AtMost(a, b) && AtMost(b, c)
    ensures AtMost(a, c)
  {
    if a != "" && a[0] == b[0] && b[0] == c[0] {
      AtMostIsTransitive(a[1..], b[1..], c[1..]);
    }
  }

  lemma {:induction false} AtMostIsAntisymmetric(a: string, b: string)
    requires AtMost(a, b) && AtMost(b, a)
    ensures a == b
  {
    if a != "" {
      AtMostIsAntisymmetric(a[1..], b[1..]);
      assert a == [a[0]] + a[1..] && b == [b[0]] + b[1..];
    }
  }

  /** Whether a range query takes a key; its upper end may or may not be included. */
  predicate InRange(key: string, low: string, high: string, closed: bool) {
    AtMost(low, key) && if closed then AtMost(key, high) else !AtMost(high, key)
  }

  predicate HasPrefix(s: string, p: string) {
    |p| <= |s| && s[..|p|] == p
  }

  /** Between the characters the scans use as their lowest and highest. */
  predicate Plain(s: string) {
    forall c :: c in s ==> ' ' < c < '~'
  }

  /** The range from k+" " to k+"~" takes the plain keys that go on after k, whichever way its end is read. */
  lemma {:induction false} RangeIsExtension(k: string, s: string, closed: bool)
    requires Plain(s)
    ensures InRange(s, k + " ", k + "~", closed) <==> HasPrefix(s, k) && |s| > |k|
  {
    if s == "" {
    } else if k == "" {
      assert s[0] in s;
      assert k + " " == " " && k + "~" == "~";
    } else {
      assert (k + " ")[1..] == k[1..] + " " && (k + "~")[1..] == k[1..] + "~";
      assert forall c :: c in s[1..] ==> c in s;
      RangeIsExtension(k[1..], s[1..], closed);
      assert HasPrefix(s, k) <==> s[0] == k[0] && HasPrefix(s[1..], k[1..]) by {
        PrefixStep(s, k);
      }
    }
  }

  /** The range from k itself to k+"~" takes k too. */
  lemma {:induction false} RangeIsPrefix(k: string, s: string, closed: bool)
    requires Plain(s)
    ensures InRange(s, k, k + "~", closed) <==> HasPrefix(s, k)
  {
    if s == "" {
    } else if k == "" {
      assert s[0] in s;
      assert k + "~" == "~";
    } else {
      assert (k + "~")[1..] == k[1..] + "~";
      assert forall c :: c in s[1..] ==> c in s;
      RangeIsPrefix(k[1..], s[1..], closed);
      PrefixStep(s, k);
    }
  }

  lemma PrefixStep(s: string, k: string)
    requires s != "" && k != ""
    ensures HasPrefix(s, k) <==> s[0] == k[0] && HasPrefix(s[1..], k[1..])
  {
    if |k| <= |s| {
      assert s[..|k|] == [s[0]] + s[1..][..|k| - 1];
      assert k == [k[0]] + k[1..];
    }
  }

  lemma PrefixAt(s: string, p: string, i: nat)
    requires HasPrefix(s, p) && i < |p|
    ensures s[i] == p[i]
  {
  }

  // Keys -------------------------------------------------------------------------------------

  const ROOT := "/pcs/"

  /** Puts a key under the service's root unless it is there already. */
  function FixUp(k: string): string {
    if HasPrefix(k, ROOT) then k
    else if HasPrefix(k, "/") then ROOT + k[1..]
    else ROOT + k
  }

  lemma FixUpTwice(k: string)
    ensures HasPrefix(FixUp(k), ROOT) && FixUp(FixUp(k)) == FixUp(k)
  {
  }

  /** The identity of a stored record. */
  datatype Key =
    | MasterKey
    | PowerStateKey(xname: string)
    | CapTaskKey(id: string)
    | CapOpKey(id: string, op: string)
    | TransitionKey(id: string)
    | PageKey(id: string, index: nat)
    | TaskKey(id: string, task: string)

  /** The text of a UUID: always 36 characters. */
  predicate IsUuid(s: string) {
    |s| == 36 && forall c :: c in s ==> IsDigit(c) || 'a' <= c <= 'f' || c == '-'
  }

  predicate IsXname(s: string) {
    s != "" && forall c :: c in s ==> IsDigit(c) || 'a' <= c <= 'z' || 'A' <= c <= 'Z'
  }

  predicate ValidKey(key: Key) {
    match key
    case MasterKey => true
    case PowerStateKey(x) => IsXname(x)
    case CapTaskKey(id) => IsUuid(id)
    case CapOpKey(id, op) => IsUuid(id) && IsUuid(op)
    case TransitionKey(id) => IsUuid(id)
    case PageKey(id, _) => IsUuid(id)
    case TaskKey(id, task) => IsUuid(id) && IsUuid(task)
  }

  function Segment(key: Key): string {
    match key
    case MasterKey => "/powerstatusmaster"
    case PowerStateKey(_) => "/powerstate"
    case CapTaskKey(_) => "/powercaptask"
    case CapOpKey(_, _) => "/powercapop"
    case TransitionKey(_) => "/transition"
    case PageKey(_, _) => "/transitionpage"
    case TaskKey(_, _) => "/transitiontask"
  }

  /** What follows the segment. */
  function Rest(key: Key): string {
    match key
    case MasterKey => ""
    case PowerStateKey(x) => "/" + x
    case CapTaskKey(id) => "/" + id
    case CapOpKey(id, op) => "/" + id + "/" + op
    case TransitionKey(id) => "/" + id
    case PageKey(id, index) => "/" + id + "/" + Decimal(index)
    case TaskKey(id, task) => "/" + id + "/" + task
  }

  /** The key as etcd sees it. */
  function Text(key: Key): string {
    FixUp(Segment(key) + Rest(key))
  }

  lemma FixUpOf(path: string)
    requires |path| > 2 && path[0] == '/' && path[2] != 'c'
    ensures FixUp(path) == "/pcs" + path
  {
    if HasPrefix(path, ROOT) {
      PrefixAt(path, ROOT, 2);
    }
    assert path[..1] == "/";
    assert ROOT + path[1..] == "/pcs" + path;
  }

  lemma SegmentStart(key: Key)
    ensures |Segment(key)| > 2 && Segment(key)[0] == '/' && Segment(key)[2] != 'c'
  {
  }

  lemma TextForm(key: Key)
    ensures Text(key) == "/pcs" + (Segment(key) + Rest(key))
  {
    hide Segment, Rest, FixUp;
    SegmentStart(key);
    FixUpOf(Segment(key) + Rest(key));
  }

  lemma TextIsPlain(key: Key)
    requires ValidKey(key)
    ensures Plain(Text(key))
  {
    hide Text, FixUp, Decimal;
    TextForm(key);
    if key.PageKey? {
      DecimalIsDigits(key.index);
    }
    assert Plain(Rest(key));
    assert Plain(Segment(key));
    assert Plain("/pcs");
  }

  // Scans ------------------------------------------------------------------------------------

  datatype Scan =
    | AllPowerStates
    | Hierarchy(xname: string)
    | AllCapTasks
    | CapOpsOf(id: string)
    | AllTransitions
    | PagesOf(id: string)
    | TasksOf(id: string)

  predicate ValidScan(scan: Scan) {
    match scan
    case Hierarchy(x) => IsXname(x)
    case CapOpsOf(id) => IsUuid(id)
    case PagesOf(id) => IsUuid(id)
    case TasksOf(id) => IsUuid(id)
    case _ => true
  }

  function ScanPath(scan: Scan): string {
    match scan
    case AllPowerStates => "/powerstate"
    case Hierarchy(x) => "/powerstate" + "/" + x
    case AllCapTasks => "/powercaptask"
    case CapOpsOf(id) => "/powercapop" + "/" + id
    case AllTransitions => "/transition" + "/"
    case PagesOf(id) => "/transitionpage" + "/" + id
    case TasksOf(id) => "/transitiontask" + "/" + id
  }

  function Low(scan: Scan): string {
    if scan.Hierarchy? then FixUp(ScanPath(scan)) else FixUp(ScanPath(scan)) + " "
  }

  function High(scan: Scan): string {
    FixUp(ScanPath(scan)) + "~"
  }

  /** The records a scan is for. */
  predicate Belongs(scan: Scan, key: Key) {
    match scan
    case AllPowerStates => key.PowerStateKey?
    case Hierarchy(x) => key.PowerStateKey? && HasPrefix(key.xname, x)
    case AllCapTasks => key.CapTaskKey?
    case CapOpsOf(id) => key.CapOpKey? && key.id == id
    case AllTransitions => key.TransitionKey?
    case PagesOf(id) => key.PageKey? && key.id == id
    case TasksOf(id) => key.TaskKey? && key.id == id
  }

  lemma ScanPathForm(scan: Scan)
    ensures FixUp(ScanPath(scan)) == "/pcs" + ScanPath(scan)
  {
    hide FixUp;
    assert |ScanPath(scan)| > 2 && ScanPath(scan)[0] == '/' && ScanPath(scan)[2] != 'c';
    FixUpOf(ScanPath(scan));
  }

  /** The segment a scan starts with, and what it asks of the rest. */
  function ScanSegment(scan: Scan): string {
    match scan
    case AllPowerStates => "/powerstate"
    case Hierarchy(_) => "/powerstate"
    case AllCapTasks => "/powercaptask"
    case CapOpsOf(_) => "/powercapop"
    case AllTransitions => "/transition"
    case PagesOf(_) => "/transitionpage"
    case TasksOf(_) => "/transitiontask"
  }

  function ScanRest(scan: Scan): string {
    match scan
    case AllPowerStates => ""
    case Hierarchy(x) => "/" + x
    case AllCapTasks => ""
    case CapOpsOf(id) => "/" + id
    case AllTransitions => "/"
    case PagesOf(id) => "/" + id
    case TasksOf(id) => "/" + id
  }

  lemma PrefixAfter(s: string, t: string, common: string)
    ensures HasPrefix(common + s, common + t) <==> HasPrefix(s, t)
  {
    if |t| <= |s| {
      assert (common + s)[..|common + t|] == common + s[..|t|];
      assert (common + t)[|common|..] == t;
      assert (common + s[..|t|])[|common|..] == s[..|t|];
    }
  }

  /** A key's path starts with a scan's only when both name the same segment. */
  lemma SegmentsApart(scan: Scan, key: Key)
    requires HasPrefix(Segment(key) + Rest(key), ScanPath(scan))
    ensures Segment(key) == ScanSegment(scan)
  {
    var s, p := Segment(key) + Rest(key), ScanPath(scan);
    PrefixAt(s, p, 1);
    PrefixAt(s, p, 8);
    PrefixAt(s, p, 9);
    PrefixAt(s, p, 10);
    if |p| > 11 {
      PrefixAt(s, p, 11);
    }
  }

  lemma UuidPrefix(id: string, other: string, tail: string)
    requires IsUuid(id) && IsUuid(other)
    ensures HasPrefix("/" + other + tail, "/" + id) <==> id == other
  {
    var s, p := "/" + other + tail, "/" + id;
    assert s[..|p|] == "/" + other;
    assert p[1..] == id && ("/" + other)[1..] == other;
  }

  /** Path by path, a scan's prefix picks out exactly the records it is for. */
  lemma PrefixPicksFamily(scan: Scan, key: Key)
    requires ValidScan(scan) && ValidKey(key)
    ensures HasPrefix(Segment(key) + Rest(key), ScanPath(scan)) <==> Belongs(scan, key)
  {
    assert ScanPath(scan) == ScanSegment(scan) + ScanRest(scan);
    if Segment(key) == ScanSegment(scan) {
      PrefixAfter(Rest(key), ScanRest(scan), Segment(key));
      RestPicksFamily(scan, key);
    } else {
      if HasPrefix(Segment(key) + Rest(key), ScanPath(scan)) {
        SegmentsApart(scan, key);
      }
    }
  }

  lemma RestPicksFamily(scan: Scan, key: Key)
    requires ValidScan(scan) && ValidKey(key) && Segment(key) == ScanSegment(scan)
    ensures HasPrefix(Rest(key), ScanRest(scan)) <==> Belongs(scan, key)
  {
    hide Segment, ScanSegment, IsUuid, IsXname, Decimal;
    hide HasPrefix;
    SameSegment(scan, key);
    match scan
    case AllPowerStates => ShortPrefixes(Rest(key));
    case AllCapTasks => ShortPrefixes(Rest(key));
    case AllTransitions => ShortPrefixes(Rest(key));
    case Hierarchy(x) => PrefixAfter(key.xname, x, "/");
    case CapOpsOf(id) =>
      assert Rest(key) == "/" + key.id + ("/" + key.op);
      UuidPrefix(id, key.id, "/" + key.op);
    case PagesOf(id) =>
      assert Rest(key) == "/" + key.id + ("/" + Decimal(key.index));
      UuidPrefix(id, key.id, "/" + Decimal(key.index));
    case TasksOf(id) =>
      assert Rest(key) == "/" + key.id + ("/" + key.task);
      UuidPrefix(id, key.id, "/" + key.task);
  }

  lemma ShortPrefixes(s: string)
    ensures HasPrefix(s, "")
    ensures s != "" && s[0] == '/' ==> HasPrefix(s, "/")
  {
  }

  lemma SameSegment(scan: Scan, key: Key)
    requires Segment(key) == ScanSegment(scan)
    ensures key.MasterKey? ==> false
    ensures key.PowerStateKey? <==> scan.AllPowerStates? || scan.Hierarchy?
    ensures key.CapTaskKey? <==> scan.AllCapTasks?
    ensures key.CapOpKey? <==> scan.CapOpsOf?
    ensures key.TransitionKey? <==> scan.AllTransitions?
    ensures key.PageKey? <==> scan.PagesOf?
    ensures key.TaskKey? <==> scan.TasksOf?
  {
  }

  /** A record's key is longer than the prefix its family is scanned with. */
  lemma FamilyGoesOn(scan: Scan, key: Key)
    requires ValidScan(scan) && ValidKey(key) && Belongs(scan, key) && !scan.Hierarchy?
    ensures |Segment(key) + Rest(key)| > |ScanPath(scan)|
  {
  }

  /** Every scan takes exactly the records it is for, and none of any other family. */
  lemma ScanIsFilter(scan: Scan, key: Key, closed: bool)
    requires ValidScan(scan) && ValidKey(key)
    ensures InRange(Text(key), Low(scan), High(scan), closed) <==> Belongs(scan, key)
  {
    hide FixUp, Segment, Rest, ScanPath, Plain, ValidKey, ValidScan, Text, InRange, HasPrefix;
    TextForm(key);
    TextIsPlain(key);
    ScanPathForm(scan);
    var path, k := Segment(key) + Rest(key), ScanPath(scan);
    assert Text(key) == "/pcs" + path;
    PrefixAfter(path, k, "/pcs");
    PrefixPicksFamily(scan, key);
    if scan.Hierarchy? {
      RangeIsPrefix("/pcs" + k, Text(key), closed);
    } else {
      RangeIsExtension("/pcs" + k, Text(key), closed);
      if Belongs(scan, key) {
        FamilyGoesOn(scan, key);
      }
    }
  }

  /** Two records never share a key. */
  lemma TextIsInjective(a: Key, b: Key)
    requires ValidKey(a) && ValidKey(b) && Text(a) == Text(b)
    ensures a == b
  {
    hide Segment, Rest, FixUp, Text, ValidKey;
    TextForm(a);
    TextForm(b);
    var s, t := Segment(a) + Rest(a), Segment(b) + Rest(b);
    assert s == Text(a)[4..] && t == Text(b)[4..];
    KindIsInjective(a, b);
    assert Rest(a) == s[|Segment(a)|..] && Rest(b) == t[|Segment(b)|..];
    RestIsInjective(a, b);
  }

  lemma KindIsInjective(a: Key, b: Key)
    requires Segment(a) + Rest(a) == Segment(b) + Rest(b)
    ensures Segment(a) == Segment(b)
  {
    var s, t := Segment(a) + Rest(a), Segment(b) + Rest(b);
    assert s[1] == t[1] && s[8] == t[8] && s[9] == t[9] && s[10] == t[10];
    if a.TransitionKey? || a.PageKey? || a.TaskKey? {
      assert s[11] == t[11];
    }
  }

  lemma RestIsInjective(a: Key, b: Key)
    requires ValidKey(a) && ValidKey(b) && Segment(a) == Segment(b) && Rest(a) == Rest(b)
    ensures a == b
  {
    match a
    case MasterKey =>
    case PowerStateKey(x) => assert Rest(a)[1..] == x && Rest(b)[1..] == b.xname;
    case CapTaskKey(id) => assert Rest(a)[1..] == id && Rest(b)[1..] == b.id;
    case TransitionKey(id) => assert Rest(a)[1..] == id && Rest(b)[1..] == b.id;
    case CapOpKey(id, op) =>
      assert Rest(a)[1..37] == id && Rest(b)[1..37] == b.id;
      assert Rest(a)[38..] == op && Rest(b)[38..] == b.op;
    case TaskKey(id, task) =>
      assert Rest(a)[1..37] == id && Rest(b)[1..37] == b.id;
      assert Rest(a)[38..] == task && Rest(b)[38..] == b.task;
    case PageKey(id, index) =>
      assert Rest(a)[1..37] == id && Rest(b)[1..37] == b.id;
      assert Rest(a)[38..] == Decimal(index) && Rest(b)[38..] == Decimal(b.index);
      NumberOfDecimal(index);
      NumberOfDecimal(b.index);
  }

  /** The number the page sort reads off a page's key is the page's index. */
  lemma PageNumber(id: string, index: nat)
    ensures Number(AfterSlash(Text(PageKey(id, index)))) == index
  {
    hide FixUp, Number, AfterSlash, Decimal, Text;
    var key := PageKey(id, index);
    TextForm(key);
    DecimalIsDigits(index);
    var path := "/pcs" + Segment(key) + "/" + id;
    assert Rest(key) == "/" + id + "/" + Decimal(index);
    assert Text(key) == path + "/" + Decimal(index);
    AfterSlashOf(path, Decimal(index));
    NumberOfDecimal(index);
  }

  /** The hierarchy scan goes by text: below cabinet 1 it finds cabinet 10 as well. */
  lemma HierarchyTakesNeighbours(closed: bool)
    ensures InRange(Text(PowerStateKey("x10")), Low(Hierarchy("x1")), High(Hierarchy("x1")), closed)
  {
    assert "x10"[..2] == "x1";
    ScanIsFilter(Hierarchy("x1"), PowerStateKey("x10"), closed);
  }
}
