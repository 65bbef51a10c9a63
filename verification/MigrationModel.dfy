/** `automation/drive_migrate_outputs.py`: what the legacy folders of a Drive account hold, said
    declaratively.  An account is a sequence of items; an item keeps its place for ever, so an index
    identifies it across moves, renames and trashing. */
module MigrationModel {
  import opened DriveNames
  import opened Text
  import opened Calendar

  const KINDS: seq<string> := ["report", "proposal", "procurement", "doctype"]

  /** `original` is the stored name, `name` its NFC form. */
  datatype Item = Item(id: Id, name: string, original: string, folder: bool, parent: Id, trashed: bool,
                       created: string, modified: string)

  type Drive = seq<Item>

  ghost predicate DriveValid(d: Drive) {
    && (forall i :: 0 <= i < |d| ==> d[i].id != "" && d[i].id != ROOT && d[i].name != "")
    && (forall i, j :: 0 <= i < |d| && 0 <= j < |d| && d[i].id == d[j].id ==> i == j)
    && (forall i {:trigger HasParent(d, i)} :: 0 <= i < |d| ==> HasParent(d, i))
    && TrashClosed(d)
  }

  ghost predicate HasParent(d: Drive, i: int)
    requires 0 <= i < |d|
  {
    d[i].parent == ROOT || exists p :: 0 <= p < |d| && d[p].folder && d[p].id == d[i].parent
  }

  /** Whatever lies in a trashed folder is in the trash. */
  ghost predicate TrashClosed(d: Drive) {
    forall i, p :: 0 <= i < |d| && 0 <= p < |d| && d[i].parent == d[p].id && d[p].trashed ==> d[i].trashed
  }

  // ---------------------------------------------------------------- legacy folders and files

  predicate MonthName(s: string) {
    && |s| == 7 && s[4] == '-'
    && IsDigit(s[0]) && IsDigit(s[1]) && IsDigit(s[2]) && IsDigit(s[3])
    && ((s[5] == '0' && '1' <= s[6] <= '9') || (s[5] == '1' && '0' <= s[6] <= '2'))
  }

  predicate LiveFolder(d: Drive, i: int) { 0 <= i < |d| && d[i].folder && !d[i].trashed }

  predicate LegacyRoot(d: Drive, i: int) { LiveFolder(d, i) && d[i].parent == ROOT && d[i].name in KINDS }

  predicate Month(d: Drive, i: int) {
    LiveFolder(d, i) && MonthName(d[i].name) && exists l :: 0 <= l < |d| && LegacyRoot(d, l) && d[i].parent == d[l].id
  }

  predicate LegacyFolder(d: Drive, i: int) { LegacyRoot(d, i) || Month(d, i) }

  predicate LegacyFile(d: Drive, i: int) {
    && 0 <= i < |d| && !d[i].folder && !d[i].trashed
    && exists p :: 0 <= p < |d| && LegacyFolder(d, p) && d[i].parent == d[p].id
  }

  /** `path` is the source path of the files directly in folder `p`. */
  ghost predicate FolderPath(d: Drive, p: int, path: string) {
    || (LegacyRoot(d, p) && path == d[p].name)
    || (Month(d, p) && exists l :: 0 <= l < |d| && LegacyRoot(d, l) && d[p].parent == d[l].id
                                && path == d[l].name + "/" + d[p].name)
  }

  ghost predicate FilePath(d: Drive, i: int, path: string) {
    && 0 <= i < |d|
    && exists p :: 0 <= p < |d| && FolderPath(d, p, path) && d[i].parent == d[p].id
  }

  // ---------------------------------------------------------------- dates and names

  predicate DigitsAt(s: string, i: int, n: nat) {
    0 <= i && i + n <= |s| && forall k :: i <= k < i + n ==> IsDigit(s[k])
  }

  /** No digit right before `i` or right at `j`. */
  predicate Bounded(s: string, i: int, j: int)
    requires 0 <= i <= j <= |s|
  {
    (i > 0 ==> !IsDigit(s[i - 1])) && (j < |s| ==> !IsDigit(s[j]))
  }

  predicate IsoAt(s: string, i: int) {
    && DigitsAt(s, i, 4) && DigitsAt(s, i + 5, 2) && DigitsAt(s, i + 8, 2) && s[i + 4] == '-' && s[i + 7] == '-'
  }

  predicate DateAt(s: string, i: int) {
    (IsoAt(s, i) && Bounded(s, i, i + 10)) || (DigitsAt(s, i, 8) && Bounded(s, i, i + 8))
  }

  /** The leftmost date-like run at or after `i`. */
  function FirstDate(s: string, i: nat): Option<nat>
    requires i <= |s|
    decreases |s| - i
  {
    if DateAt(s, i) then Some(i) else if i == |s| then None else FirstDate(s, i + 1)
  }

  function ReadDate(raw: string): Option<Date> {
    if IsoAt(raw, 0) && |raw| == 10 then ToDate(Value(raw[..4]), Value(raw[5..7]), Value(raw[8..10]))
    else if '-' !in raw && DigitsAt(raw, 0, 8) then ToDate(Value(raw[..4]), Value(raw[4..6]), Value(raw[6..8]))
    else None
  }

  /** `_date_from_entry`: a date in the name wins over the creation time. */
  function DateOf(item: Item): Option<Date> {
    var at := FirstDate(item.name, 0);
    if at.Some? && at.value <= |item.name| then
      var rest := item.name[at.value..];
      ReadDate(if IsoAt(rest, 0) then rest[..10] else rest[..if |rest| < 8 then |rest| else 8])
    else ReadDate(if |item.created| > 10 then item.created[..10] else item.created)
  }

  /** `_migrated_name` */
  function MigratedName(name: string, on: Date): string {
    var prefix := IsoDate(on) + "_";
    if prefix <= name then name else prefix + name
  }

  function CategoryFolder(kind: string): string {
    if kind == "report" then "주간동향" else if kind == "proposal" then "제안서"
    else if kind == "procurement" then "구매" else "문서"
  }

  /** `folder_parts(kind, year)` in the layout with a single outputs root. */
  function Destination(outputs: string, path: string, on: Date): seq<string> {
    [outputs, CategoryFolder(Partition(path, '/').0), Decimal(on.year)]
  }

  // ---------------------------------------------------------------- the order that picks a winner

  /** Python's order on strings. */
  predicate Le(a: string, b: string) {
    a == "" || (b != "" && (a[0] < b[0] || (a[0] == b[0] && Le(a[1..], b[1..]))))
  }

  lemma {:induction false} LeTotal(a: string, b: string)
    ensures Le(a, b) || Le(b, a)
    ensures Le(a, b) && Le(b, a) ==> a == b
  {
    if a != "" && b != "" && a[0] == b[0] {
      LeTotal(a[1..], b[1..]);
      assert a == [a[0]] + a[1..] && b == [b[0]] + b[1..];
    }
  }

  lemma {:induction false} LeTransitive(a: string, b: string, c: string)
    requires Le(a, b) && Le(b, c)
    ensures Le(a, c)
  {
    if a != "" && a[0] == b[0] && b[0] == c[0] {
      LeTransitive(a[1..], b[1..], c[1..]);
    }
  }

  /** `a` and `b` agree up to `k`, where `a` ends or has the smaller character. */
  ghost predicate BeforeAt(a: string, b: string, k: nat) {
    k <= |a| && k < |b| && a[..k] == b[..k] && (k == |a| || a[k] < b[k])
  }

  /** `a` comes before `b` in a dictionary: it is a proper prefix, or smaller where they first differ. */
  ghost predicate Before(a: string, b: string) { exists k: nat :: BeforeAt(a, b, k) }

  lemma BeforeStep(c: char, a: string, b: string)
    ensures Before([c] + a, [c] + b) <==> Before(a, b)
  {
    var x, y := [c] + a, [c] + b;
    if k: nat :| BeforeAt(a, b, k) {
      assert x[..k + 1] == [c] + a[..k] && y[..k + 1] == [c] + b[..k];
      assert BeforeAt(x, y, k + 1);
    }
    if k: nat :| BeforeAt(x, y, k) {
      assert x[..k][1..] == a[..k - 1] && y[..k][1..] == b[..k - 1];
      assert BeforeAt(a, b, k - 1);
    }
  }

  lemma SameHead(a: string, b: string, k: nat)
    requires BeforeAt(a, b, k)
    ensures k == 0 || (a != "" && b != "" && a[0] == b[0])
  {
    assert k > 0 ==> a[..k][0] == a[0] && b[..k][0] == b[0];
  }

  lemma BeforeFirst(a: string, b: string)
    requires a == "" || b == "" || a[0] != b[0]
    ensures Before(a, b) <==> b != "" && (a == "" || a[0] < b[0])
  {
    forall k: nat | BeforeAt(a, b, k) ensures k == 0 {
      SameHead(a, b, k);
    }
    if b != "" && (a == "" || a[0] < b[0]) {
      assert BeforeAt(a, b, 0);
    }
  }

  /** The recursive comparison is the order of a dictionary. */
  lemma {:induction false} LeIs(a: string, b: string)
    ensures Le(a, b) <==> a == b || Before(a, b)
  {
    if a != "" && b != "" && a[0] == b[0] {
      LeIs(a[1..], b[1..]);
      BeforeStep(a[0], a[1..], b[1..]);
      assert a == [a[0]] + a[1..] && b == [a[0]] + b[1..];
    } else {
      BeforeFirst(a, b);
    }
  }

  lemma NotBefore(a: string, b: string)
    ensures Le(a, b) <==> !Before(b, a)
    ensures !(a == b && Before(a, b))
  {
    LeIs(a, b);
    LeIs(b, a);
    LeTotal(a, b);
    assert forall k: nat :: !BeforeAt(a, a, k);
  }

  /** The key `(modified_time, file_id)`, compared as tuples are. */
  predicate KeyLe(x: Item, y: Item) {
    if x.modified == y.modified then Le(x.id, y.id) else Le(x.modified, y.modified)
  }

  /** `x` was modified before `y`, or when `y` was and has no greater id. */
  ghost predicate Older(x: Item, y: Item) {
    Before(x.modified, y.modified) || (x.modified == y.modified && (x.id == y.id || Before(x.id, y.id)))
  }

  lemma KeyLeIs(x: Item, y: Item)
    ensures KeyLe(x, y) <==> Older(x, y)
  {
    LeIs(x.id, y.id);
    LeIs(x.modified, y.modified);
    NotBefore(x.modified, y.modified);
  }

  lemma OlderTotal(x: Item, y: Item)
    ensures Older(x, y) || Older(y, x)
    ensures Older(x, y) && Older(y, x) ==> x.id == y.id
  {
    KeyLeIs(x, y);
    KeyLeIs(y, x);
    LeTotal(x.id, y.id);
    LeTotal(x.modified, y.modified);
  }

  lemma OlderTransitive(x: Item, y: Item, z: Item)
    requires Older(x, y) && Older(y, z)
    ensures Older(x, z)
  {
    KeyLeIs(x, y);
    KeyLeIs(y, z);
    KeyLeIs(x, z);
    LeTotal(x.modified, y.modified);
    LeTotal(y.modified, z.modified);
    if x.modified == y.modified == z.modified {
      LeTransitive(x.id, y.id, z.id);
    } else if x.modified != y.modified && y.modified != z.modified {
      LeTransitive(x.modified, y.modified, z.modified);
    }
  }

  lemma NothingNewer(x: Item, y: Item)
    ensures Older(x, y) <==> !Before(y.modified, x.modified) && (x.modified == y.modified ==> !Before(y.id, x.id))
  {
    LeIs(x.modified, y.modified);
    LeIs(x.id, y.id);
    NotBefore(x.modified, y.modified);
    NotBefore(x.id, y.id);
  }

  // ---------------------------------------------------------------- the fate of every item

  /** The newest legacy file of its name. */
  ghost predicate Winner(d: Drive, i: int) {
    && LegacyFile(d, i)
    && forall j :: 0 <= j < |d| && LegacyFile(d, j) && d[j].name == d[i].name ==> Older(d[j], d[i])
  }

  ghost predicate Duplicate(d: Drive, i: int) { LegacyFile(d, i) && !Winner(d, i) }

  ghost predicate Moved(d: Drive, i: int) { Winner(d, i) && DateOf(d[i]).Some? }

  ghost predicate Undated(d: Drive, i: int) { Winner(d, i) && DateOf(d[i]).None? }

  predicate MonthBlocked(d: Drive, m: int)
    requires 0 <= m < |d|
  {
    exists c :: 0 <= c < |d| && LiveFolder(d, c) && d[c].parent == d[m].id
  }

  predicate Blocks(d: Drive, c: int, l: int)
    requires 0 <= c < |d| && 0 <= l < |d|
  {
    LiveFolder(d, c) && d[c].parent == d[l].id && (!MonthName(d[c].name) || MonthBlocked(d, c))
  }

  predicate RootBlocked(d: Drive, l: int)
    requires 0 <= l < |d|
  {
    exists c :: 0 <= c < |d| && Blocks(d, c, l)
  }

  predicate Within(path: string, folder: string) { path == folder || folder + "/" <= path }

  /** Some undated winner has a source path in folder `f`, going by the path text. */
  ghost predicate HoldsUndated(d: Drive, f: int) {
    exists i, path, folder :: FolderPath(d, f, folder) && Undated(d, i) && FilePath(d, i, path) && Within(path, folder)
  }

  /** A folder in a legacy root that is no month. */
  ghost predicate UnknownFolder(d: Drive, i: int) {
    LiveFolder(d, i) && !MonthName(d[i].name) && exists l :: 0 <= l < |d| && LegacyRoot(d, l) && d[i].parent == d[l].id
  }

  /** A folder in a month folder. */
  ghost predicate TooDeep(d: Drive, i: int) {
    LiveFolder(d, i) && exists m :: 0 <= m < |d| && Month(d, m) && d[i].parent == d[m].id
  }

  /** The folders that the plan trashes as empty. */
  ghost predicate Goes(d: Drive, f: int) {
    && LegacyFolder(d, f) && !HoldsUndated(d, f)
    && (LegacyRoot(d, f) ==> !RootBlocked(d, f)) && (Month(d, f) ==> !MonthBlocked(d, f))
  }
}
