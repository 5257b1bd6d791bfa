/**
 * The pure rules both configuration stores follow
 * (src/hooks/use-file-operations.ts and src/store/file-operations-store.ts):
 * the configuration fingerprint, the path history, the path table, the
 * selection map, merging imported servers and filtering the export.
 */
module StoreSpec {
  import opened Wrappers
  import opened McpConfig

  // ---------------------------------------------------------------------
  // Fingerprint: the sorted server names joined by '|', or "empty-config".
  // ---------------------------------------------------------------------

  /** The fingerprint of a configuration with no name to join. */
  const EmptyConfigId: string := "empty-config"

  /** Lexicographic order on strings, character by character (the order of `Array.prototype.sort`). */
  predicate Less(a: string, b: string)
    ensures a < b ==> Less(a, b)
    decreases |a|
  {
    if |a| == 0 then |b| > 0
    else if |b| == 0 then false
    else if a[0] != b[0] then a[0] < b[0]
    else Less(a[1..], b[1..])
  }

  lemma {:induction false} LessIrreflexive(a: string)
    ensures !Less(a, a)
    decreases |a|
  {
    if |a| > 0 { LessIrreflexive(a[1..]); }
  }

  lemma {:induction false} LessTransitive(a: string, b: string, c: string)
    requires Less(a, b) && Less(b, c)
    ensures Less(a, c)
    decreases |a|
  {
    if |a| > 0 && a[0] == b[0] && b[0] == c[0] {
      LessTransitive(a[1..], b[1..], c[1..]);
    }
  }

  lemma {:induction false} LessTotal(a: string, b: string)
    ensures a == b || Less(a, b) || Less(b, a)
    ensures !(Less(a, b) && Less(b, a))
    decreases |a|
  {
    if |a| > 0 && |b| > 0 && a[0] == b[0] {
      LessTotal(a[1..], b[1..]);
      if a[1..] == b[1..] {
        assert a == [a[0]] + a[1..] && b == [b[0]] + b[1..];
      }
    }
  }

  /** `m` is the least element of `s`. */
  predicate IsLeast(m: string, s: set<string>) {
    m in s && forall x :: x in s && x != m ==> Less(m, x)
  }

  lemma {:induction false} LeastExists(s: set<string>)
    requires s != {}
    ensures exists m :: IsLeast(m, s)
    decreases s
  {
    var y :| y in s;
    var rest := s - {y};
    if rest == {} {
      assert s == {y};
      assert IsLeast(y, s);
    } else {
      LeastExists(rest);
      var m :| IsLeast(m, rest);
      LessTotal(y, m);
      if Less(y, m) {
        forall x | x in s && x != y ensures Less(y, x) {
          if x != m { LessTransitive(y, m, x); }
        }
        assert IsLeast(y, s);
      } else {
        assert IsLeast(m, s);
      }
    }
  }

  lemma LeastUnique(m: string, m': string, s: set<string>)
    requires IsLeast(m, s) && IsLeast(m', s)
    ensures m == m'
  {
    if m != m' { LessTotal(m, m'); }
  }

  lemma LeastUniqueAll(s: set<string>)
    ensures forall m, m' :: IsLeast(m, s) && IsLeast(m', s) ==> m == m'
  {
    forall m, m' | IsLeast(m, s) && IsLeast(m', s) ensures m == m' {
      LeastUnique(m, m', s);
    }
  }

  /** The elements of a sequence are strictly increasing. */
  predicate StrictlySorted(xs: seq<string>) {
    forall i, j :: 0 <= i < j < |xs| ==> Less(xs[i], xs[j])
  }

  /** The names of a set in increasing order. */
  function SortedNames(s: set<string>): (xs: seq<string>)
    decreases s
  {
    if s == {} then []
    else
      LeastExists(s);
      LeastUniqueAll(s);
      var m :| IsLeast(m, s);
      [m] + SortedNames(s - {m})
  }

  /** `SortedNames` lists every name of the set exactly once, in increasing order. */
  lemma {:induction false} SortedNamesSorted(s: set<string>)
    ensures |SortedNames(s)| == |s|
    ensures forall x :: x in SortedNames(s) <==> x in s
    ensures StrictlySorted(SortedNames(s))
    decreases s
  {
    if s != {} {
      LeastExists(s);
      var m :| IsLeast(m, s);
      LeastUniqueAll(s);
      var rest := SortedNames(s - {m});
      SortedNamesSorted(s - {m});
      assert SortedNames(s) == [m] + rest;
      assert forall x :: x in rest ==> Less(m, x);
    }
  }

  /** `array.join('|')`. */
  function Join(xs: seq<string>): (r: string)
    ensures |xs| >= 1 ==> xs[0] <= r
    ensures |xs| >= 2 ==> |xs[0]| < |r| && r[|xs[0]|] == '|'
  {
    if |xs| == 0 then ""
    else if |xs| == 1 then xs[0]
    else xs[0] + "|" + Join(xs[1..])
  }

  /** `generateConfigId` on a set of server names. */
  function ConfigId(names: set<string>): (id: string)
    ensures id != ""
    ensures names == {} ==> id == EmptyConfigId
  {
    var joined := Join(SortedNames(names));
    if joined == "" then EmptyConfigId else joined
  }

  /** A configuration with a single, non-empty server name is identified by that name. */
  lemma {:induction false} ConfigIdOfSingleName(n: string)
    requires n != ""
    ensures ConfigId({n}) == n
  {
    SortedNamesSorted({n});
    var xs := SortedNames({n});
    assert xs[0] in {n};
    assert xs == [n];
  }

  /** `generateConfigId(config)`: it reads nothing of the document but the names of its servers. */
  function ConfigIdOf(d: Document): (id: string)
    ensures id != ""
    ensures d.mcpServers.None? ==> id == EmptyConfigId
  {
    ConfigId(ServersOf(d).Keys)
  }

  /** The head of a strictly sorted listing of `s` is its least name, and the tail lists the rest. */
  lemma SortedHead(xs: seq<string>, s: set<string>)
    requires xs != [] && StrictlySorted(xs) && forall x :: x in xs <==> x in s
    ensures IsLeast(xs[0], s)
    ensures StrictlySorted(xs[1..]) && forall x :: x in xs[1..] <==> x in s - {xs[0]}
  {
    forall x | x in s && x != xs[0] ensures Less(xs[0], x) {
      var i :| 0 <= i < |xs| && xs[i] == x;
    }
    forall x | x in xs[1..] ensures x != xs[0] {
      var i :| 1 <= i < |xs| && xs[i] == x;
      assert Less(xs[0], xs[i]);
      LessIrreflexive(x);
    }
  }

  /** The strictly sorted listing of a set's names is unique. */
  lemma {:induction false} SortedNamesUnique(xs: seq<string>, s: set<string>)
    requires StrictlySorted(xs) && forall x :: x in xs <==> x in s
    ensures xs == SortedNames(s)
    decreases |xs|
  {
    if xs == [] {
      assert s == {};
    } else {
      SortedHead(xs, s);
      var ys := SortedNames(s);
      SortedNamesSorted(s);
      SortedHead(ys, s);
      LeastUnique(xs[0], ys[0], s);
      SortedNamesUnique(xs[1..], s - {xs[0]});
      SortedNamesUnique(ys[1..], s - {xs[0]});
      assert xs == [xs[0]] + xs[1..] && ys == [ys[0]] + ys[1..];
    }
  }

  /** Splitting at every '|', the inverse of `Join` for names without '|'. */
  function Split(s: string): (parts: seq<string>)
    ensures |parts| >= 1
  {
    if |s| == 0 then [""]
    else if s[0] == '|' then [""] + Split(s[1..])
    else
      var r := Split(s[1..]);
      [[s[0]] + r[0]] + r[1..]
  }

  /** A server name that the fingerprint can tell apart from others. */
  predicate PlainName(n: string) {
    n != "" && n != EmptyConfigId && '|' !in n
  }

  lemma {:induction false} SplitPlain(a: string, rest: string)
    requires '|' !in a
    ensures Split(a) == [a]
    ensures Split(a + "|" + rest) == [a] + Split(rest)
    decreases |a|
  {
    if |a| == 0 {
      assert a + "|" + rest == ['|'] + rest;
      assert (['|'] + rest)[1..] == rest;
    } else {
      SplitPlain(a[1..], rest);
      assert (a + "|" + rest)[1..] == a[1..] + "|" + rest;
      assert [a[0]] + a[1..] == a;
    }
  }

  lemma {:induction false} SplitJoin(xs: seq<string>)
    requires |xs| >= 1 && forall i :: 0 <= i < |xs| ==> '|' !in xs[i]
    ensures Split(Join(xs)) == xs
    decreases |xs|
  {
    if |xs| == 1 {
      SplitPlain(xs[0], "");
    } else {
      SplitJoin(xs[1..]);
      SplitPlain(xs[0], Join(xs[1..]));
      assert xs == [xs[0]] + xs[1..];
    }
  }

  /** The fingerprint is "empty-config" exactly for the empty name set, when every name is plain. */
  lemma JoinEmpty(xs: seq<string>)
    requires forall i :: 0 <= i < |xs| ==> PlainName(xs[i])
    ensures Join(xs) == "" <==> xs == []
    ensures |xs| >= 1 ==> Join(xs) != EmptyConfigId
  {
    if |xs| >= 2 {
      assert Join(xs)[|xs[0]|] == '|';
      assert '|' !in EmptyConfigId;
    }
  }

  /** Two sets of plain names get the same fingerprint only if they are the same set. */
  lemma ConfigIdInjective(a: set<string>, b: set<string>)
    requires forall n :: n in a ==> PlainName(n)
    requires forall n :: n in b ==> PlainName(n)
    requires ConfigId(a) == ConfigId(b)
    ensures a == b
  {
    var xs, ys := SortedNames(a), SortedNames(b);
    SortedNamesSorted(a);
    SortedNamesSorted(b);
    JoinEmpty(xs);
    JoinEmpty(ys);
    if xs == [] || ys == [] {
      assert xs == [] && ys == [];
    } else {
      SplitJoin(xs);
      SplitJoin(ys);
      assert xs == ys;
    }
  }

  /** A name containing '|' collides with the names on either side of it. */
  lemma ConfigIdCollidesOnBar()
    ensures ConfigId({"a|b"}) == ConfigId({"a", "b"})
  {
    var s := {"a", "b"};
    assert Less("a", "b");
    SortedNamesSorted(s);
    SortedHead(SortedNames(s), s);
    LeastUnique(SortedNames(s)[0], "a", s);
    assert SortedNames(s) == ["a", "b"];
  }

  /** The empty configuration, a lone empty name and a lone name "empty-config" all share one fingerprint. */
  lemma ConfigIdCollidesOnSentinel()
    ensures ConfigId({}) == ConfigId({""}) == ConfigId({EmptyConfigId}) == EmptyConfigId
  {
    assert SortedNames({""}) == [""];
    assert SortedNames({EmptyConfigId}) == [EmptyConfigId];
  }

  // ---------------------------------------------------------------------
  // Path history: an ordered list with set semantics.
  // ---------------------------------------------------------------------

  predicate NoDuplicates(xs: seq<string>) {
    forall i, j :: 0 <= i < j < |xs| ==> xs[i] != xs[j]
  }

  /** The invariant the history keeps: no repeats and no empty path. */
  predicate HistoryValid(h: seq<string>) {
    NoDuplicates(h) && "" !in h
  }

  /** `updatePathHistory`: append a non-empty path that is not there yet. */
  function AddToHistory(h: seq<string>, p: string): (r: seq<string>)
    ensures p != "" && p !in h ==> r == h + [p]
    ensures p == "" || p in h ==> r == h
    ensures HistoryValid(h) ==> HistoryValid(r)
  {
    if p == "" || p in h then h else h + [p]
  }

  /** `removePathFromHistory`: drop every occurrence of `p`. */
  function RemoveFromHistory(h: seq<string>, p: string): (r: seq<string>)
    ensures p !in r
    ensures forall x :: x in r <==> x in h && x != p
    ensures |r| <= |h|
  {
    if h == [] then []
    else if h[0] == p then RemoveFromHistory(h[1..], p)
      else [h[0]] + RemoveFromHistory(h[1..], p)
  }

  /** Removing drops every copy of `p` and keeps every other path as often as it occurred. */
  lemma {:induction false} RemoveDropsEveryCopy(h: seq<string>, p: string)
    ensures multiset(RemoveFromHistory(h, p)) == multiset(h)[p := 0]
  {
    if h != [] {
      RemoveDropsEveryCopy(h[1..], p);
      assert h == [h[0]] + h[1..];
    }
  }

  /** `xs` is `ys` with some elements left out, the rest in their order. */
  predicate IsSubsequence(xs: seq<string>, ys: seq<string>)
    decreases |ys|
  {
    if xs == [] then true
    else if ys == [] then false
    else if xs[0] == ys[0] then IsSubsequence(xs[1..], ys[1..])
    else IsSubsequence(xs, ys[1..])
  }

  /** Removing keeps the order of the remaining paths and is idempotent. */
  lemma {:induction false} RemoveKeepsOrder(h: seq<string>, p: string)
    ensures IsSubsequence(RemoveFromHistory(h, p), h)
    ensures RemoveFromHistory(RemoveFromHistory(h, p), p) == RemoveFromHistory(h, p)
    ensures NoDuplicates(h) ==> NoDuplicates(RemoveFromHistory(h, p))
  {
    var r := RemoveFromHistory(h, p);
    if h != [] {
      RemoveKeepsOrder(h[1..], p);
      var r' := RemoveFromHistory(h[1..], p);
      if h[0] != p {
        assert r == [h[0]] + r';
        assert r[1..] == r';
        if NoDuplicates(h) {
          assert NoDuplicates(h[1..]) by {
            forall i, j | 0 <= i < j < |h[1..]| ensures h[1..][i] != h[1..][j] {
              assert h[1..][i] == h[i + 1] && h[1..][j] == h[j + 1];
            }
          }
          assert h[0] !in r';
        }
      } else {
        if NoDuplicates(h) {
          assert NoDuplicates(h[1..]) by {
            forall i, j | 0 <= i < j < |h[1..]| ensures h[1..][i] != h[1..][j] {
              assert h[1..][i] == h[i + 1] && h[1..][j] == h[j + 1];
            }
          }
        }
      }
      if r' == [] { }
    }
    NoRemovalWhenAbsent(r, p);
  }

  lemma {:induction false} NoRemovalWhenAbsent(h: seq<string>, p: string)
    requires p !in h
    ensures RemoveFromHistory(h, p) == h
  {
    if h != [] {
      NoRemovalWhenAbsent(h[1..], p);
      assert h == [h[0]] + h[1..];
    }
  }

  /**
   * The legacy history migration: the non-empty paths of the stored path
   * table in table order, each kept at its first occurrence
   * (`Array.from(new Set(paths.filter(Boolean)))`).
   */
  function MigrateHistory(paths: seq<string>): (h: seq<string>)
    ensures HistoryValid(h)
    ensures forall x :: x in h <==> x in paths && x != ""
  {
    if paths == [] then []
    else AddToHistory(MigrateHistory(paths[..|paths| - 1]), paths[|paths| - 1])
  }

  /** Migration keeps paths in the order of their first occurrence. */
  lemma {:induction false} MigrationKeepsFirstOccurrenceOrder(paths: seq<string>, i: nat, j: nat)
    requires i < j < |paths| && paths[i] != "" && paths[j] != "" && paths[j] !in paths[..j]
    ensures paths[i] != paths[j]
    ensures exists a, b :: (0 <= a < b < |MigrateHistory(paths)| &&
      MigrateHistory(paths)[a] == paths[i] && MigrateHistory(paths)[b] == paths[j])
    decreases |paths|
  {
    assert paths[i] in paths[..j];
    var init := paths[..|paths| - 1];
    if j < |paths| - 1 {
      assert init[i] == paths[i] && init[j] == paths[j] && init[..j] == paths[..j];
      MigrationKeepsFirstOccurrenceOrder(init, i, j);
      var a, b :| 0 <= a < b < |MigrateHistory(init)| &&
        MigrateHistory(init)[a] == paths[i] && MigrateHistory(init)[b] == paths[j];
      assert MigrateHistory(paths)[..|MigrateHistory(init)|] == MigrateHistory(init);
      assert MigrateHistory(paths)[a] == paths[i] && MigrateHistory(paths)[b] == paths[j];
    } else {
      assert init == paths[..j];
      var m := MigrateHistory(init);
      assert paths[i] in m by { assert paths[i] in init; }
      var a :| 0 <= a < |m| && m[a] == paths[i];
      assert MigrateHistory(paths) == m + [paths[j]];
      assert MigrateHistory(paths)[a] == paths[i] && MigrateHistory(paths)[|m|] == paths[j];
    }
  }

  // ---------------------------------------------------------------------
  // Path table: fingerprint -> last path.
  // ---------------------------------------------------------------------

  /** `updatePathMapping`: remember `p` for the fingerprint of `d`. */
  function RememberPath(m: map<string, string>, d: Document, p: string): (r: map<string, string>)
    ensures r.Keys == m.Keys + {ConfigIdOf(d)} && r[ConfigIdOf(d)] == p
    ensures forall k :: k in m && k != ConfigIdOf(d) ==> r[k] == m[k]
  {
    m[ConfigIdOf(d) := p]
  }

  /** `getPathForConfig`: the remembered path, or "" when there is none. */
  function PathFor(m: map<string, string>, d: Document): (p: string)
    ensures ConfigIdOf(d) !in m ==> p == ""
    ensures ConfigIdOf(d) in m ==> p == m[ConfigIdOf(d)]
  {
    if ConfigIdOf(d) in m then m[ConfigIdOf(d)] else ""
  }

  /** After remembering a path for `c`, every document with the same server names recalls it. */
  lemma RecallByNames(m: map<string, string>, c: Document, c2: Document, p: string)
    requires ServersOf(c).Keys == ServersOf(c2).Keys
    ensures PathFor(RememberPath(m, c, p), c2) == p
  {
  }

  /** The save path: the custom path, else the current path, else the remembered path. */
  function SavePath(customPath: string, currentPath: string, remembered: string): (p: string)
    ensures customPath != "" ==> p == customPath
    ensures customPath == "" && currentPath != "" ==> p == currentPath
    ensures customPath == "" && currentPath == "" ==> p == remembered
  {
    if customPath != "" then customPath
    else if currentPath != "" then currentPath
    else remembered
  }

  // ---------------------------------------------------------------------
  // Selection, merging and export.
  // ---------------------------------------------------------------------

  /** `toggleServerSelection`: an absent name reads as false and becomes true. */
  function Toggle(sel: map<string, bool>, n: string): (r: map<string, bool>)
    ensures r.Keys == sel.Keys + {n}
    ensures r[n] == !(n in sel && sel[n])
    ensures forall k :: k in sel && k != n ==> r[k] == sel[k]
  {
    sel[n := !(n in sel && sel[n])]
  }

  /** A selection whose keys are exactly `names`, all mapped to `b`. */
  function AllSelected(names: set<string>, b: bool): (r: map<string, bool>)
    ensures r.Keys == names
    ensures forall k :: k in r ==> r[k] == b
  {
    map n | n in names :: b
  }

  /** The selection with every name of `names` set to `b` and the other entries kept. */
  function MarkSelected(sel: map<string, bool>, names: set<string>, b: bool): (r: map<string, bool>)
    ensures r.Keys == sel.Keys + names
    ensures forall k :: k in names ==> r[k] == b
    ensures forall k :: k in sel && k !in names ==> r[k] == sel[k]
  {
    sel + AllSelected(names, b)
  }

  /** Merging imported servers: imported entries win on a clash, the others are kept. */
  function MergeServers(current: Servers, imported: Servers): (r: Servers)
    ensures r.Keys == current.Keys + imported.Keys
    ensures forall n :: n in imported ==> r[n] == imported[n]
    ensures forall n :: n in current && n !in imported ==> r[n] == current[n]
  {
    current + imported
  }

  /** Merging the same servers twice is merging them once. */
  lemma MergeIdempotent(current: Servers, imported: Servers)
    ensures MergeServers(MergeServers(current, imported), imported) == MergeServers(current, imported)
  {
  }

  /** The saved servers: those both selected and present, with their entries unchanged. */
  function Exported(servers: Servers, sel: map<string, bool>): (r: Servers)
    ensures r.Keys == set n | n in servers && n in sel && sel[n]
    ensures forall n :: n in r ==> r[n] == servers[n]
  {
    map n | n in servers && n in sel && sel[n] :: servers[n]
  }

  /** Some name is selected. */
  predicate AnySelected(sel: map<string, bool>) {
    exists n :: n in sel && sel[n]
  }

  /** With every server selected, the export is the whole configuration. */
  lemma ExportAllIsIdentity(servers: Servers)
    ensures Exported(servers, AllSelected(servers.Keys, true)) == servers
  {
  }

  /** What a snippet import inserts: the first top-level key, or the key "undefined" with no fields when there is none. */
  function Snippet(d: Document): (r: (string, Entry))
    ensures |d.others| > 0 ==> r == d.others[0]
    ensures |d.others| == 0 ==> r == ("undefined", EmptyEntry)
  {
    if |d.others| > 0 then d.others[0] else ("undefined", EmptyEntry)
  }

  // ---------------------------------------------------------------------
  // The state both stores hold, the host bridge's replies, and the
  // transitions the two stores share.
  // ---------------------------------------------------------------------

  /** The error message a failed handler leaves in the state. */
  datatype StoreError = OpenFailed | SaveFailed | ImportFailed

  /**
   * What the open-file handler receives: the user cancelled, the bridge
   * threw, or a file was read; `parsed` is `JSON.parse` of its content,
   * `None` when parsing threw.
   */
  datatype OpenReply = OpenCancelled | OpenThrew | Opened(path: string, parsed: Option<Document>)

  /**
   * What the save bridge answers: it threw, or it returned; `path` is the
   * returned `path`, "" when the reply carries none (a cancel, or a bare `true`).
   */
  datatype SaveReply = SaveThrew | SaveReturned(path: string)

  /** What the save handler hands to the bridge: the servers to write and the path. */
  datatype SaveRequest = SaveRequest(content: Servers, path: string)

  /** A local-storage item that `JSON.parse` reads: no item, text on which it throws, or the parsed value. */
  datatype Stored<T> = Absent | Malformed | Parsed(value: T)

  /**
   * The four local-storage keys as read at start-up: the stored configuration,
   * the stored path ("" when absent), the path table as the (fingerprint,
   * path) members of its text in text order, and the stored history.
   */
  datatype StoredState = StoredState(
    config: Stored<Document>,
    path: string,
    mappings: Stored<seq<(string, string)>>,
    history: Stored<seq<string>>)

  /** Every field a store holds except the `loading` flag. */
  datatype StoreState = StoreState(
    config: Option<Document>,
    currentPath: string,
    pathMappings: map<string, string>,
    pathHistory: seq<string>,
    error: Option<StoreError>,
    importText: string,
    selectedServers: map<string, bool>)

  /** `{ mcpServers: {} }`. */
  const EmptyDocument: Document := Document(Some(map[]), [])

  /** No later member of `members` has the key of member `i`. */
  predicate LastWithKey(members: seq<(string, string)>, i: nat)
    requires i < |members|
  {
    forall j :: i < j < |members| ==> members[j].0 != members[i].0
  }

  /** The path table a stored list of members parses to; a later member overwrites an earlier one. */
  function MapOf(members: seq<(string, string)>): (m: map<string, string>)
    ensures m.Keys == set p | p in members :: p.0
    ensures forall i :: 0 <= i < |members| && LastWithKey(members, i) ==> m[members[i].0] == members[i].1
  {
    if members == [] then map[]
    else
      var last := members[|members| - 1];
      var init := members[..|members| - 1];
      assert members == init + [last];
      MapOf(init)[last.0 := last.1]
  }

  /** The keys of the parsed path table in the order `JSON.parse` creates them: each at its first member. */
  function KeyOrder(members: seq<(string, string)>): (ks: seq<string>)
    ensures NoDuplicates(ks)
    ensures forall k :: k in ks <==> k in MapOf(members)
  {
    if members == [] then []
    else
      var ks := KeyOrder(members[..|members| - 1]);
      var k := members[|members| - 1].0;
      if k in ks then ks else ks + [k]
  }

  /** `Object.values` of the parsed path table: one value per key, the one that key ends up with. */
  function ValuesOf(members: seq<(string, string)>): (vs: seq<string>)
    ensures |vs| == |KeyOrder(members)|
    ensures forall i :: 0 <= i < |vs| ==> vs[i] == MapOf(members)[KeyOrder(members)[i]]
    ensures forall v :: v in vs <==> v in MapOf(members).Values
  {
    var m, ks := MapOf(members), KeyOrder(members);
    var vs := seq(|ks|, i requires 0 <= i < |ks| => m[ks[i]]);
    assert forall v :: v in m.Values ==> v in vs by {
      forall v | v in m.Values ensures v in vs {
        var k :| k in m && m[k] == v;
        var i :| 0 <= i < |ks| && ks[i] == k;
        assert vs[i] == v;
      }
    }
    vs
  }

  /**
   * The `try` block of the start-up load, run from the store's initial
   * state `s0`: the state it reaches and whether a `JSON.parse` threw. The
   * items are read in turn (configuration, path, path table, history); a
   * throw ends the block with the fields set so far. Without a stored
   * history the history is taken from the parsed path table's values.
   */
  function LoadSteps(s0: StoreState, saved: StoredState): (r: (StoreState, bool))
    ensures r.1 <==> saved.config.Malformed? || saved.mappings.Malformed? || saved.history.Malformed?
    ensures r.0.error == s0.error && r.0.importText == s0.importText
    ensures saved.config.Malformed? ==> r.0 == s0
    ensures !saved.config.Malformed? ==> r.0.currentPath == (if saved.path != "" then saved.path else s0.currentPath)
    ensures saved.config.Parsed? ==> r.0.config == Some(saved.config.value)
    ensures saved.config.Absent? ==> r.0.config == s0.config
    ensures saved.config.Parsed? && saved.config.value.mcpServers.Some? ==>
      r.0.selectedServers == AllSelected(saved.config.value.mcpServers.value.Keys, true)
    ensures !saved.config.Malformed? && saved.mappings.Parsed? ==> r.0.pathMappings == MapOf(saved.mappings.value)
    ensures !saved.config.Malformed? && !saved.mappings.Malformed? && saved.history.Parsed? ==>
      r.0.pathHistory == saved.history.value
  {
    if saved.config.Malformed? then (s0, true)
    else
      var s1 :=
        if saved.config.Absent? then s0
        else
          var d := saved.config.value;
          s0.(config := Some(d),
              selectedServers := if d.mcpServers.Some? then AllSelected(d.mcpServers.value.Keys, true) else s0.selectedServers);
      var s2 := if saved.path != "" then s1.(currentPath := saved.path) else s1;
      if saved.mappings.Malformed? then (s2, true)
      else
        var s3 := if saved.mappings.Parsed? then s2.(pathMappings := MapOf(saved.mappings.value)) else s2;
        match saved.history
        case Malformed => (s3, true)
        case Parsed(h) => (s3.(pathHistory := h), false)
        case Absent =>
          (if saved.mappings.Parsed? then s3.(pathHistory := MigrateHistory(ValuesOf(saved.mappings.value))) else s3, false)
  }

  /** Without a stored history, start-up takes it from the path table: exactly its non-empty paths, each once. */
  lemma MigratedHistoryFollowsTable(s0: StoreState, saved: StoredState)
    requires saved.config != Malformed && saved.mappings.Parsed? && saved.history.Absent?
    ensures var r := LoadSteps(s0, saved).0;
      && HistoryValid(r.pathHistory)
      && forall p :: p in r.pathHistory <==> p != "" && p in r.pathMappings.Values
  {
  }

  /** `config.mcpServers[name]` throws in the save filter: the key is missing and some name is selected. */
  predicate SaveFilterThrows(s: StoreState)
    requires s.config.Some?
  {
    s.config.value.mcpServers.None? && AnySelected(s.selectedServers)
  }

  /** What `handleSaveFile` hands to the bridge, `None` when it stops or throws first. */
  function SaveRequestFor(s: StoreState, customPath: string): (r: Option<SaveRequest>)
    ensures r.None? <==> s.config.None? || SaveFilterThrows(s)
    ensures r.Some? ==> r.value.content == Exported(ServersOf(s.config.value), s.selectedServers)
    ensures r.Some? ==> r.value.path == SavePath(customPath, s.currentPath, PathFor(s.pathMappings, s.config.value))
  {
    if s.config.None? || SaveFilterThrows(s) then None
    else Some(SaveRequest(
      Exported(ServersOf(s.config.value), s.selectedServers),
      SavePath(customPath, s.currentPath, PathFor(s.pathMappings, s.config.value))))
  }

  /** `handleSaveFile`: the state after the bridge answered `reply`. */
  function SaveFile(s: StoreState, customPath: string, reply: SaveReply): (r: StoreState)
    ensures s.config.None? ==> r == s
    ensures s.config.Some? ==> (r.error == Some(SaveFailed) <==> SaveRequestFor(s, customPath).None? || reply.SaveThrew?)
    ensures s.config.Some? ==> (r.error.None? <==> SaveRequestFor(s, customPath).Some? && reply.SaveReturned?)
    ensures r.importText == s.importText
  {
    if s.config.None? then s
    else if SaveFilterThrows(s) then s.(error := Some(SaveFailed))
    else
      var request := SaveRequestFor(s, customPath).value;
      match reply
      case SaveThrew => s.(error := Some(SaveFailed))
      case SaveReturned(path) =>
        if path == "" then s.(error := None)
        else s.(error := None, currentPath := path,
                pathMappings := RememberPath(s.pathMappings, Document(Some(request.content), []), path),
                pathHistory := AddToHistory(s.pathHistory, path))
  }

  /**
   * `handleImportConfig` (the same in both stores): a document with
   * `mcpServers` is merged in and its names selected; any other object
   * inserts and selects its first member. The current path follows the
   * merged configuration's remembered path when it has one.
   */
  function ImportConfig(s: StoreState, parsed: Option<Document>): (r: StoreState)
    ensures r.pathMappings == s.pathMappings && r.pathHistory == s.pathHistory
    ensures parsed.None? ==> r.error == Some(ImportFailed) && r.importText == s.importText
    ensures parsed.Some? ==> r.error.None? && r.importText == "" && r.config.Some? && r.config.value.mcpServers.Some?
  {
    if parsed.None? then s.(error := Some(ImportFailed))
    else
      var config := ImportedConfig(s.config, parsed.value);
      var path := PathFor(s.pathMappings, config);
      s.(config := Some(config), selectedServers := ImportedSelection(s.selectedServers, parsed.value),
         currentPath := if path != "" then path else s.currentPath,
         importText := "", error := None)
  }

  /** The configuration after importing `d` into `current` (`{}` when there is none). */
  function ImportedConfig(current: Option<Document>, d: Document): (r: Document)
    ensures r.mcpServers.Some?
    ensures r.others == current.GetOr(Document(None, [])).others
    ensures d.mcpServers.Some? ==>
      ServersOf(r) == MergeServers(ServersOf(current.GetOr(Document(None, []))), d.mcpServers.value)
    ensures d.mcpServers.None? ==>
      ServersOf(r) == ServersOf(current.GetOr(Document(None, [])))[Snippet(d).0 := Snippet(d).1]
  {
    var base := current.GetOr(Document(None, []));
    if d.mcpServers.Some? then base.(mcpServers := Some(MergeServers(ServersOf(base), d.mcpServers.value)))
    else base.(mcpServers := Some(ServersOf(base)[Snippet(d).0 := Snippet(d).1]))
  }

  /** The selection after importing `d`: the imported names, or the snippet's name, become selected. */
  function ImportedSelection(sel: map<string, bool>, d: Document): (r: map<string, bool>)
    ensures d.mcpServers.Some? ==> r == MarkSelected(sel, d.mcpServers.value.Keys, true)
    ensures d.mcpServers.None? ==> r == sel[Snippet(d).0 := true]
  {
    if d.mcpServers.Some? then MarkSelected(sel, d.mcpServers.value.Keys, true)
    else sel[Snippet(d).0 := true]
  }

  /** `createNewConfig` (the same in both stores). */
  function CreateNewConfig(s: StoreState): (r: StoreState)
    ensures r.config == Some(EmptyDocument) && r.currentPath == "" && r.selectedServers == map[]
    ensures r.pathMappings == s.pathMappings && r.pathHistory == s.pathHistory
    ensures r.error == s.error && r.importText == s.importText
  {
    s.(config := Some(EmptyDocument), currentPath := "", selectedServers := map[])
  }

  // ---------------------------------------------------------------------
  // Properties of the shared transitions.
  // ---------------------------------------------------------------------

  /** Unparseable import text sets the error and changes nothing else. */
  lemma ImportMalformedKeepsState(s: StoreState)
    ensures ImportConfig(s, None) == s.(error := Some(ImportFailed))
  {
  }

  /** A full document import merges (imported entries win), selects every imported name and keeps the other selections. */
  lemma ImportFullDocument(s: StoreState, d: Document)
    requires d.mcpServers.Some?
    ensures var r := ImportConfig(s, Some(d));
      && r.config.Some? && r.config.value.mcpServers.Some?
      && r.config.value.others == s.config.GetOr(Document(None, [])).others
      && ServersOf(r.config.value) == MergeServers(ServersOf(s.config.GetOr(Document(None, []))), d.mcpServers.value)
      && (forall n :: n in d.mcpServers.value ==> n in r.selectedServers && r.selectedServers[n])
      && (forall n :: n in s.selectedServers && n !in d.mcpServers.value ==> r.selectedServers[n] == s.selectedServers[n])
      && r.importText == "" && r.error.None?
  {
  }

  /** A snippet import inserts and selects only its first member. */
  lemma ImportSnippet(s: StoreState, d: Document)
    requires d.mcpServers.None? && |d.others| > 0
    ensures var r := ImportConfig(s, Some(d));
      && r.config.Some?
      && r.config.value.others == s.config.GetOr(Document(None, [])).others
      && ServersOf(r.config.value).Keys == ServersOf(s.config.GetOr(Document(None, []))).Keys + {d.others[0].0}
      && ServersOf(r.config.value)[d.others[0].0] == d.others[0].1
      && r.selectedServers == s.selectedServers[d.others[0].0 := true]
  {
    assert ImportConfig(s, Some(d)).config == Some(ImportedConfig(s.config, d));
  }

  /** The current path changes on import only to the merged configuration's remembered path. */
  lemma ImportPathFollowsMapping(s: StoreState, d: Document)
    ensures var r := ImportConfig(s, Some(d));
      && r.config.Some?
      && (PathFor(s.pathMappings, r.config.value) != "" ==> r.currentPath == PathFor(s.pathMappings, r.config.value))
      && (PathFor(s.pathMappings, r.config.value) == "" ==> r.currentPath == s.currentPath)
  {
  }

  /** Importing the same full document twice gives the same configuration as importing it once. */
  lemma {:induction false} ImportIdempotent(s: StoreState, d: Document)
    requires d.mcpServers.Some?
    ensures ImportConfig(ImportConfig(s, Some(d)), Some(d)).config == ImportConfig(s, Some(d)).config
    ensures ImportConfig(ImportConfig(s, Some(d)), Some(d)).selectedServers == ImportConfig(s, Some(d)).selectedServers
  {
    var base := s.config.GetOr(Document(None, []));
    MergeIdempotent(ServersOf(base), d.mcpServers.value);
    var once := ImportConfig(s, Some(d));
    assert once.config == Some(ImportedConfig(s.config, d));
    assert ImportedConfig(once.config, d) == ImportedConfig(s.config, d);
    var sel := MarkSelected(s.selectedServers, d.mcpServers.value.Keys, true);
    assert MarkSelected(sel, d.mcpServers.value.Keys, true) == sel;
  }

  /** The saved servers are exactly the selected ones that exist, with unchanged entries. */
  lemma SaveWritesSelection(s: StoreState, customPath: string, n: string)
    requires SaveRequestFor(s, customPath).Some?
    ensures var content := SaveRequestFor(s, customPath).value.content;
      && (n in content <==> n in ServersOf(s.config.value) && n in s.selectedServers && s.selectedServers[n])
      && (n in content ==> content[n] == ServersOf(s.config.value)[n])
  {
  }

  /** A save whose bridge returns a path makes it current, remembers it for the saved names and records it. */
  lemma SaveRecordsReturnedPath(s: StoreState, customPath: string, path: string)
    requires SaveRequestFor(s, customPath).Some? && path != ""
    ensures var r := SaveFile(s, customPath, SaveReturned(path));
      && r.currentPath == path && path in r.pathHistory && r.error.None?
      && PathFor(r.pathMappings, Document(Some(SaveRequestFor(s, customPath).value.content), [])) == path
      && r.config == s.config && r.selectedServers == s.selectedServers
  {
  }

  /** Saving never changes the configuration or the selection. */
  lemma SaveKeepsConfig(s: StoreState, customPath: string, reply: SaveReply)
    ensures SaveFile(s, customPath, reply).config == s.config
    ensures SaveFile(s, customPath, reply).selectedServers == s.selectedServers
  {
  }

  // ---------------------------------------------------------------------
  // The two loops that build a selection and a filtered export.
  // ---------------------------------------------------------------------

  /** `names.forEach(n => selected[n] = b)`. */
  method MarkEach(sel: map<string, bool>, names: set<string>, b: bool) returns (r: map<string, bool>)
    ensures r == MarkSelected(sel, names, b)
  {
    r := sel;
    var todo := names;
    while todo != {}
      invariant todo <= names
      invariant r == MarkSelected(sel, names - todo, b)
      decreases todo
    {
      var n :| n in todo;
      MarkOneMore(sel, names - todo, n, b);
      r := r[n := b];
      assert names - (todo - {n}) == (names - todo) + {n};
      todo := todo - {n};
    }
  }

  lemma MarkOneMore(sel: map<string, bool>, done: set<string>, n: string, b: bool)
    ensures MarkSelected(sel, done + {n}, b) == MarkSelected(sel, done, b)[n := b]
  {
    var l, r := MarkSelected(sel, done + {n}, b), MarkSelected(sel, done, b)[n := b];
    assert l.Keys == r.Keys;
    forall k | k in l ensures l[k] == r[k] {
      if k != n && k !in done { }
    }
  }

  /**
   * The `Object.entries(selected).filter(...).forEach(...)` loop that builds
   * the saved servers; `None` when it throws because the configuration has
   * no `mcpServers` and some name is selected.
   */
  method FilterSelected(servers: Option<Servers>, sel: map<string, bool>) returns (r: Option<Servers>)
    ensures r.None? <==> servers.None? && AnySelected(sel)
    ensures r.Some? ==> r.value == Exported(servers.GetOr(map[]), sel)
  {
    var out: Servers := map[];
    var todo := sel.Keys;
    while todo != {}
      invariant todo <= sel.Keys
      invariant forall n :: n in sel && n !in todo && sel[n] ==> servers.Some?
      invariant out.Keys == set n | n in servers.GetOr(map[]) && n in sel && sel[n] && n !in todo
      invariant forall n :: n in out ==> out[n] == servers.value[n]
      decreases todo
    {
      var n :| n in todo;
      if sel[n] {
        if servers.None? {
          return None;
        }
        if n in servers.value {
          out := out[n := servers.value[n]];
        }
      }
      todo := todo - {n};
    }
    assert out == Exported(servers.GetOr(map[]), sel);
    r := Some(out);
  }
}
