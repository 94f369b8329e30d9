/**
 * Skill listing and skill lookup, which walk the same roots separately
 * (rust/crates/commands/src/lib.rs).
 */
module Skills {
  import opened Wrappers
  import opened Text
  import opened StableSort

  // ------------------------------------------------------------- the roots

  datatype Origin = SkillsDir | LegacyCommandsDir

  /** One directory entry: what it is, its path, and the contents of the file that would be read. */
  datatype DirEntry = DirEntry(fileName: string, path: string, isDir: bool, hasSkillFile: bool, isMarkdown: bool, stem: string, contents: string)

  datatype Root = Root(origin: Origin, source: nat, entries: seq<DirEntry>)

  /** The name in a file's front matter, and the white space that is trimmed. */
  datatype World = World(frontmatterName: string -> Option<string>, isSpace: char -> bool)

  datatype Found = Found(name: string, path: string, source: nat)

  function NameOr(name: Option<string>, fallback: string): (r: string) {
    if name.Some? then name.value else fallback
  }

  /** The skill in a directory entry, if it is one. */
  function SkillIn(w: World, root: Root, e: DirEntry): (found: Option<Found>) {
    if root.origin == SkillsDir then
      if !e.isDir || !e.hasSkillFile then None
      else Some(Found(NameOr(w.frontmatterName(e.contents), e.fileName), e.path + "/SKILL.md", root.source))
    else if e.isDir then
      if !e.hasSkillFile then None
      else Some(Found(NameOr(w.frontmatterName(e.contents), "SKILL"), e.path + "/SKILL.md", root.source))
    else if e.isMarkdown then
      Some(Found(NameOr(w.frontmatterName(e.contents), e.stem), e.path, root.source))
    else None
  }

  /** The skills among the first `n` entries, in directory order. */
  function SkillsOf(w: World, root: Root, n: nat): (s: seq<Found>)
    requires n <= |root.entries|
  {
    if n == 0 then []
    else
      var found := SkillIn(w, root, root.entries[n - 1]);
      if found.Some? then SkillsOf(w, root, n - 1) + [found.value] else SkillsOf(w, root, n - 1)
  }

  /** A directory with a skill file is a skill; in a commands directory so is a Markdown file. */
  predicate HoldsSkill(root: Root, e: DirEntry) {
    if e.isDir then e.hasSkillFile else root.origin.LegacyCommandsDir? && e.isMarkdown
  }

  /** The skill is the one the entry holds: its front matter's name, or that of its directory or file. */
  predicate IsSkillOf(w: World, root: Root, e: DirEntry, f: Found) {
    && f.source == root.source
    && f.path == (if e.isDir then e.path + "/SKILL.md" else e.path)
    && (w.frontmatterName(e.contents).Some? ==> f.name == w.frontmatterName(e.contents).value)
    && (w.frontmatterName(e.contents).None? ==>
          f.name == if root.origin.SkillsDir? then e.fileName else if e.isDir then "SKILL" else e.stem)
  }

  function SkillCount(root: Root, n: nat): (count: nat)
    requires n <= |root.entries|
  {
    if n == 0 then 0 else SkillCount(root, n - 1) + (if HoldsSkill(root, root.entries[n - 1]) then 1 else 0)
  }

  /** The skills found are those of the entries that hold one, each once and in directory order. */
  lemma {:induction false} SkillsAreTheirEntries(w: World, root: Root, n: nat)
    requires n <= |root.entries|
    ensures |SkillsOf(w, root, n)| == SkillCount(root, n)
    ensures forall i :: 0 <= i < n && HoldsSkill(root, root.entries[i]) ==>
              SkillCount(root, i) < SkillCount(root, n) && IsSkillOf(w, root, root.entries[i], SkillsOf(w, root, n)[SkillCount(root, i)])
  {
    if n > 0 {
      SkillsAreTheirEntries(w, root, n - 1);
    }
  }

  // ------------------------------------------------------- names and order

  function LowerChar(c: char): (r: char) {
    if 'A' <= c <= 'Z' then c + ('a' - 'A') else c
  }

  function Key(name: string): (key: string)
    ensures |key| == |name| && forall i :: 0 <= i < |name| ==> key[i] == LowerChar(name[i])
  {
    seq(|name|, i requires 0 <= i < |name| => LowerChar(name[i]))
  }

  predicate EqIgnoreAsciiCase(a: string, b: string) {
    |a| == |b| && forall i :: 0 <= i < |a| ==> LowerChar(a[i]) == LowerChar(b[i])
  }

  lemma SameKey(a: string, b: string)
    ensures EqIgnoreAsciiCase(a, b) <==> Key(a) == Key(b)
  {
    if Key(a) == Key(b) {
      forall i | 0 <= i < |a|
        ensures LowerChar(a[i]) == LowerChar(b[i])
      {
        assert Key(a)[i] == Key(b)[i];
      }
    }
  }

  /** The same character, or the same letter of the English alphabet in the other case. */
  predicate IsSameLetter(x: char, y: char) {
    x == y || ('A' <= x <= 'Z' && y as int == x as int + 32) || ('A' <= y <= 'Z' && x as int == y as int + 32)
  }

  /** Two names have one key exactly when they differ in the case of English letters at most. */
  lemma KeysIgnoreCase(a: string, b: string)
    ensures Key(a) == Key(b) <==> |a| == |b| && forall i :: 0 <= i < |a| ==> IsSameLetter(a[i], b[i])
  {
    forall i | 0 <= i < |a| && i < |b|
      ensures Key(a)[i] == Key(b)[i] <==> IsSameLetter(a[i], b[i])
    {
      assert Key(a)[i] == LowerChar(a[i]) && Key(b)[i] == LowerChar(b[i]);
    }
    if |a| == |b| && forall i :: 0 <= i < |a| ==> IsSameLetter(a[i], b[i]) {
      assert Key(a) == Key(b);
    }
  }

  /** The order of strings by their characters. */
  predicate AtMost(a: string, b: string) {
    a == "" || (b != "" && (a[0] < b[0] || (a[0] == b[0] && AtMost(a[1..], b[1..]))))
  }

  lemma {:induction false} AtMostTotal(a: string, b: string)
    ensures AtMost(a, b) || AtMost(b, a)
  {
    if a != "" && b != "" {
      AtMostTotal(a[1..], b[1..]);
    }
  }

  lemma {:induction false} AtMostTransitive(a: string, b: string, c: string)
    requires AtMost(a, b) && AtMost(b, c)
    ensures AtMost(a, c)
  {
    if a != "" {
      if a[0] == b[0] == c[0] {
        AtMostTransitive(a[1..], b[1..], c[1..]);
      }
    }
  }

  /** The strings agree up to place `k`, where the first has the smaller character. */
  ghost predicate DiffersAt(a: string, b: string, k: nat) {
    k < |a| && k < |b| && a[..k] == b[..k] && a[k] < b[k]
  }

  /** A string comes first when the other goes on from it, or has the greater character where they first differ. */
  lemma {:induction false} OrderIsByFirstDifference(a: string, b: string)
    ensures AtMost(a, b) <==> a <= b || exists k :: DiffersAt(a, b, k)
  {
    forall k: nat | DiffersAt(a, b, k)
      ensures k > 0 ==> a[0] == b[0]
    {
      AgreesBefore(a, b, k);
    }
    if a != "" && b != "" && a[0] == b[0] {
      var x, y := a[1..], b[1..];
      OrderIsByFirstDifference(x, y);
      assert a <= b <==> x <= y by {
        assert a == [a[0]] + x && b == [b[0]] + y;
      }
      if k: nat :| DiffersAt(x, y, k) {
        assert a[..k + 1] == [a[0]] + x[..k] && b[..k + 1] == [b[0]] + y[..k];
        assert DiffersAt(a, b, k + 1);
      }
      if k: nat :| DiffersAt(a, b, k) {
        assert k > 0 && x[..k - 1] == a[..k][1..] && y[..k - 1] == b[..k][1..];
        assert DiffersAt(x, y, k - 1);
      }
    } else if a != "" && b != "" {
      if a[0] < b[0] {
        assert DiffersAt(a, b, 0);
      }
    }
  }

  lemma AgreesBefore(a: string, b: string, k: nat)
    requires DiffersAt(a, b, k)
    ensures k > 0 ==> a[0] == b[0]
  {
    assert k > 0 ==> a[..k][0] == b[..k][0];
  }

  predicate ByName(x: Found, y: Found) {
    AtMost(x.name, y.name)
  }

  // ------------------------------------------------------------ the listing

  /** The skills of the first `n` roots, each root's sorted by name. */
  function Listed(w: World, roots: seq<Root>, n: nat): (l: seq<Found>)
    requires n <= |roots|
  {
    if n == 0 then [] else Listed(w, roots, n - 1) + Sort(SkillsOf(w, roots[n - 1], |roots[n - 1].entries|), ByName)
  }

  /** The first of the first `n` skills with the key. */
  function FirstWith(l: seq<Found>, n: nat, key: string): (i: Option<nat>)
    requires n <= |l|
    ensures i.Some? ==> i.value < n && Key(l[i.value].name) == key
    ensures forall j :: 0 <= j < (if i.Some? then i.value else n) ==> Key(l[j].name) != key
  {
    if n == 0 then None
    else
      var before := FirstWith(l, n - 1, key);
      if before.Some? then before
      else if Key(l[n - 1].name) == key then Some(n - 1)
      else None
  }

  datatype Summary = Summary(name: string, source: nat, shadowedBy: Option<nat>)

  /** A skill as it is listed: shadowed by the first one before it whose name differs in case at most. */
  function SummaryAt(l: seq<Found>, i: nat): (s: Summary)
    requires i < |l|
  {
    var first := FirstWith(l, i, Key(l[i].name));
    Summary(l[i].name, l[i].source, if first.Some? then Some(l[first.value].source) else None)
  }

  /** The sources of the keys seen so far. */
  ghost predicate Tracks(active: map<string, nat>, l: seq<Found>) {
    forall key :: (key in active <==> FirstWith(l, |l|, key).Some?)
                  && (key in active ==> active[key] == l[FirstWith(l, |l|, key).value].source)
  }

  ghost predicate Summarizes(skills: seq<Summary>, l: seq<Found>) {
    |skills| == |l| && forall i :: 0 <= i < |l| ==> skills[i] == SummaryAt(l, i)
  }

  lemma {:induction false} FirstWithPrefix(l: seq<Found>, more: seq<Found>, n: nat, key: string)
    requires n <= |l|
    ensures FirstWith(l + more, n, key) == FirstWith(l, n, key)
  {
    if n > 0 {
      FirstWithPrefix(l, more, n - 1, key);
    }
  }

  lemma TracksOneMore(active: map<string, nat>, l: seq<Found>, f: Found)
    requires Tracks(active, l)
    ensures Tracks(if Key(f.name) in active then active else active[Key(f.name) := f.source], l + [f])
  {
    forall key
      ensures FirstWith(l + [f], |l| + 1, key)
              == if FirstWith(l, |l|, key).Some? then FirstWith(l, |l|, key) else if Key(f.name) == key then Some(|l|) else None
    {
      FirstWithPrefix(l, [f], |l|, key);
    }
  }

  lemma SummaryStays(l: seq<Found>, f: Found, i: nat)
    requires i < |l|
    ensures SummaryAt(l + [f], i) == SummaryAt(l, i)
  {
    FirstWithPrefix(l, [f], i, Key(l[i].name));
    assert (l + [f])[i] == l[i];
  }

  lemma SummaryOfNext(active: map<string, nat>, l: seq<Found>, f: Found)
    requires Tracks(active, l)
    ensures var key := Key(f.name);
            SummaryAt(l + [f], |l|) == Summary(f.name, f.source, if key in active then Some(active[key]) else None)
  {
    FirstWithPrefix(l, [f], |l|, Key(f.name));
    assert (l + [f])[|l|] == f;
  }

  lemma SummarizesOneMore(skills: seq<Summary>, next: Summary, l: seq<Found>, f: Found)
    requires Summarizes(skills, l) && next == SummaryAt(l + [f], |l|)
    ensures Summarizes(skills + [next], l + [f])
  {
    forall i | 0 <= i < |l|
      ensures (skills + [next])[i] == SummaryAt(l + [f], i)
    {
      SummaryStays(l, f, i);
    }
  }

  method FindSkills(w: World, root: Root) returns (skills: seq<Found>)
    ensures skills == SkillsOf(w, root, |root.entries|)
  {
    skills := [];
    for i := 0 to |root.entries|
      invariant skills == SkillsOf(w, root, i)
    {
      var found := SkillIn(w, root, root.entries[i]);
      if found.None? {
        continue;
      }
      skills := skills + [found.value];
    }
  }

  /** The list and the keys after the skills `l`. */
  ghost predicate Lists(skills: seq<Summary>, active: map<string, nat>, l: seq<Found>) {
    Summarizes(skills, l) && Tracks(active, l)
  }

  lemma ListsOneMore(skills: seq<Summary>, active: map<string, nat>, l: seq<Found>, f: Found)
    requires Lists(skills, active, l)
    ensures var key := Key(f.name);
            if key in active
            then Lists(skills + [Summary(f.name, f.source, Some(active[key]))], active, l + [f])
            else Lists(skills + [Summary(f.name, f.source, None)], active[key := f.source], l + [f])
  {
    SummaryOfNext(active, l, f);
    SummarizesOneMore(skills, SummaryAt(l + [f], |l|), l, f);
    TracksOneMore(active, l, f);
  }

  method LoadSkillsFromRoots(w: World, roots: seq<Root>) returns (skills: seq<Summary>)
    ensures Summarizes(skills, Listed(w, roots, |roots|))
  {
    skills := [];
    var active: map<string, nat> := map[];
    for r := 0 to |roots|
      invariant Lists(skills, active, Listed(w, roots, r))
    {
      var found := FindSkills(w, roots[r]);
      skills, active := AddSkills(skills, active, Sort(found, ByName), Listed(w, roots, r));
    }
  }

  /** Lists one root's skills after those of the roots before it. */
  method AddSkills(before: seq<Summary>, sources: map<string, nat>, sorted: seq<Found>, ghost listed: seq<Found>)
    returns (skills: seq<Summary>, active: map<string, nat>)
    requires Lists(before, sources, listed)
    ensures Lists(skills, active, listed + sorted)
  {
    skills, active := before, sources;
    ghost var seen := listed;
    for i := 0 to |sorted|
      invariant Lists(skills, active, seen) && seen + sorted[i..] == listed + sorted
    {
      var f := sorted[i];
      var key := Key(f.name);
      ListsOneMore(skills, active, seen, f);
      if key in active {
        skills := skills + [Summary(f.name, f.source, Some(active[key]))];
      } else {
        skills := skills + [Summary(f.name, f.source, None)];
        active := active[key := f.source];
      }
      NextMoves(seen, sorted, i);
      seen := seen + [f];
    }
    assert seen + sorted[|sorted|..] == seen;
  }

  lemma NextMoves(seen: seq<Found>, sorted: seq<Found>, i: nat)
    requires i < |sorted|
    ensures seen + [sorted[i]] + sorted[i + 1..] == seen + sorted[i..]
  {}

  // ------------------------------------------------------------- the lookup

  datatype LookupError = InvalidInput | NotFound

  function Strip(w: World, skill: string): (requested: string) {
    TrimStart(c => c == '$', TrimStart(c => c == '/', TrimEnd(w.isSpace, TrimStart(w.isSpace, skill))))
  }

  /** A request loses the white space around it, then all slashes and then all dollar signs before its name, and nothing else. */
  lemma RequestIsStripped(w: World, before: string, slashes: string, dollars: string, name: string, after: string)
    requires (forall i :: 0 <= i < |before| ==> w.isSpace(before[i])) && (forall i :: 0 <= i < |after| ==> w.isSpace(after[i]))
    requires (forall i :: 0 <= i < |slashes| ==> slashes[i] == '/') && (forall i :: 0 <= i < |dollars| ==> dollars[i] == '$')
    requires !w.isSpace('/') && !w.isSpace('$')
    requires name != "" && !w.isSpace(name[0]) && !w.isSpace(name[|name| - 1]) && name[0] != '$' && (dollars == "" ==> name[0] != '/')
    ensures Strip(w, before + ((slashes + (dollars + name)) + after)) == name
  {
    var inner := dollars + name;
    var core := slashes + inner;
    assert core[|core| - 1] == name[|name| - 1];
    assert core[0] == if slashes != "" then slashes[0] else if dollars != "" then dollars[0] else name[0];
    assert inner[0] == if dollars != "" then dollars[0] else name[0];
    TrimmedBefore(w.isSpace, before, core + after);
    TrimmedAfter(w.isSpace, core, after);
    var slash, dollar := (c: char) => c == '/', (c: char) => c == '$';
    TrimmedBefore(slash, slashes, inner);
    TrimmedBefore(dollar, dollars, name);
    assert TrimStart(dollar, TrimStart(slash, core)) == name;
  }

  /** What a request resolves to, by its place in the listing. */
  function Resolved(w: World, l: seq<Found>, skill: string): (r: Result<nat, LookupError>) {
    var requested := Strip(w, skill);
    if requested == "" then Err(InvalidInput)
    else
      var i := FirstWith(l, |l|, Key(requested));
      if i.Some? then Ok(i.value) else Err(NotFound)
  }

  /** The first of the skills whose name is the one requested, whatever its case. */
  method Find(entries: seq<Found>, requested: string) returns (i: Option<nat>)
    ensures i == FirstWith(entries, |entries|, Key(requested))
  {
    for k := 0 to |entries|
      invariant FirstWith(entries, k, Key(requested)).None?
    {
      SameKey(entries[k].name, requested);
      if EqIgnoreAsciiCase(entries[k].name, requested) {
        FirstStays(entries, k + 1, |entries|, Key(requested));
        return Some(k);
      }
    }
    return None;
  }

  lemma {:induction false} FirstStays(l: seq<Found>, n: nat, m: nat, key: string)
    requires n <= m <= |l| && FirstWith(l, n, key).Some?
    ensures FirstWith(l, m, key) == FirstWith(l, n, key)
    decreases m - n
  {
    if n < m {
      FirstStays(l, n + 1, m, key);
    }
  }

  lemma {:induction false} FirstWithAppend(l: seq<Found>, more: seq<Found>, n: nat, key: string)
    requires n <= |more|
    ensures FirstWith(l + more, |l| + n, key)
            == if FirstWith(l, |l|, key).Some? then FirstWith(l, |l|, key)
               else if FirstWith(more, n, key).Some? then Some(|l| + FirstWith(more, n, key).value)
               else None
  {
    if n == 0 {
      FirstWithPrefix(l, more, |l|, key);
    } else {
      FirstWithAppend(l, more, n - 1, key);
    }
  }

  lemma {:induction false} ListedGrows(w: World, roots: seq<Root>, n: nat, m: nat)
    requires n <= m <= |roots|
    ensures Listed(w, roots, n) <= Listed(w, roots, m)
  {
    if n < m {
      ListedGrows(w, roots, n, m - 1);
    }
  }

  /** What was found in the first roots is what is found in all of them, and the same skill. */
  lemma FirstInEarlierRoots(w: World, roots: seq<Root>, n: nat, key: string)
    requires n <= |roots|
    requires FirstWith(Listed(w, roots, n), |Listed(w, roots, n)|, key).Some?
    ensures var part, all := Listed(w, roots, n), Listed(w, roots, |roots|);
            var i := FirstWith(part, |part|, key);
            FirstWith(all, |all|, key) == i && all[i.value] == part[i.value]
  {
    ListedGrows(w, roots, n, |roots|);
    var part, all := Listed(w, roots, n), Listed(w, roots, |roots|);
    assert all == part + all[|part|..];
    FirstWithPrefix(part, all[|part|..], |part|, key);
    FirstStays(all, |part|, |all|, key);
  }

  lemma FirstOfNext(before: seq<Found>, entries: seq<Found>, key: string)
    requires FirstWith(before, |before|, key).None?
    ensures var i, both := FirstWith(entries, |entries|, key), before + entries;
            var at := FirstWith(both, |both|, key);
            at.Some? == i.Some? && (i.Some? ==> both[at.value] == entries[i.value])
  {
    FirstWithAppend(before, entries, |entries|, key);
  }

  /** A root searched after others that have no such skill. */
  lemma SearchedRoot(w: World, roots: seq<Root>, r: nat, entries: seq<Found>, key: string)
    requires r < |roots| && entries == Sort(SkillsOf(w, roots[r], |roots[r].entries|), ByName)
    requires FirstWith(Listed(w, roots, r), |Listed(w, roots, r)|, key).None?
    ensures var i := FirstWith(entries, |entries|, key);
            if i.None? then FirstWith(Listed(w, roots, r + 1), |Listed(w, roots, r + 1)|, key).None?
            else
              var all := Listed(w, roots, |roots|);
              var at := FirstWith(all, |all|, key);
              at.Some? && all[at.value] == entries[i.value]
  {
    FirstOfNext(Listed(w, roots, r), entries, key);
    assert Listed(w, roots, r + 1) == Listed(w, roots, r) + entries;
    if FirstWith(entries, |entries|, key).Some? {
      FirstInEarlierRoots(w, roots, r + 1, key);
    }
  }

  method ResolveSkillPath(w: World, roots: seq<Root>, skill: string) returns (path: Result<string, LookupError>)
    ensures path == PathOf(Listed(w, roots, |roots|), Resolved(w, Listed(w, roots, |roots|), skill))
  {
    var requested := Strip(w, skill);
    if requested == "" {
      return Err(InvalidInput);
    }
    for r := 0 to |roots|
      invariant FirstWith(Listed(w, roots, r), |Listed(w, roots, r)|, Key(requested)).None?
    {
      var found := FindSkills(w, roots[r]);
      var entries := Sort(found, ByName);
      var i := Find(entries, requested);
      SearchedRoot(w, roots, r, entries, Key(requested));
      if i.Some? {
        return Ok(entries[i.value].path);
      }
    }
    return Err(NotFound);
  }

  /** The file of the skill found. */
  function PathOf(l: seq<Found>, at: Result<nat, LookupError>): (path: Result<string, LookupError>) {
    if at.Err? then Err(at.error) else if at.value < |l| then Ok(l[at.value].path) else Err(NotFound)
  }

  // ------------------------------------------------------------ agreement

  /** Nothing to trim: no white space at either end, and no leading slash or dollar sign. */
  ghost predicate IsPlain(w: World, name: string) {
    name != "" ==> !w.isSpace(name[0]) && !w.isSpace(name[|name| - 1]) && name[0] != '/' && name[0] != '$'
  }

  lemma {:induction false} TrimStartShortens(isSpace: char -> bool, s: string)
    ensures |TrimStart(isSpace, s)| <= |s|
    ensures |TrimStart(isSpace, s)| == |s| ==> TrimStart(isSpace, s) == s && (s != "" ==> !isSpace(s[0]))
  {
    if s != "" && isSpace(s[0]) {
      TrimStartShortens(isSpace, s[1..]);
    }
  }

  lemma {:induction false} TrimEndShortens(isSpace: char -> bool, s: string)
    ensures |TrimEnd(isSpace, s)| <= |s|
    ensures |TrimEnd(isSpace, s)| == |s| ==> TrimEnd(isSpace, s) == s && (s != "" ==> !isSpace(s[|s| - 1]))
  {
    if s != "" && isSpace(s[|s| - 1]) {
      TrimEndShortens(isSpace, s[..|s| - 1]);
    }
  }

  /** A request is taken as it is exactly when there is nothing to trim; otherwise it gets shorter. */
  lemma StripKeepsPlain(w: World, name: string)
    ensures IsPlain(w, name) <==> Strip(w, name) == name
    ensures Strip(w, name) == name || |Strip(w, name)| < |name|
  {
    var a := TrimStart(w.isSpace, name);
    var b := TrimEnd(w.isSpace, a);
    var slash, dollar := (c: char) => c == '/', (c: char) => c == '$';
    var c := TrimStart(slash, b);
    TrimStartShortens(w.isSpace, name);
    TrimEndShortens(w.isSpace, a);
    TrimStartShortens(slash, b);
    TrimStartShortens(dollar, c);
    assert Strip(w, name) == TrimStart(dollar, c);
  }

  /** For each listed name exactly one entry with that name, whatever its case, is not shadowed. */
  lemma {:induction false} OneUnshadowed(l: seq<Found>, i: nat) returns (at: nat)
    requires i < |l|
    ensures at <= i && FirstWith(l, |l|, Key(l[i].name)) == Some(at)
    ensures SummaryAt(l, at).shadowedBy.None?
    ensures forall j :: 0 <= j < |l| && Key(l[j].name) == Key(l[i].name) && SummaryAt(l, j).shadowedBy.None? ==> j == at
  {
    var key := Key(l[i].name);
    at := FirstWith(l, |l|, key).value;
  }

  /**
   * Resolving a listed name finds its unshadowed entry exactly when the name is
   * not empty and there is nothing to trim from it.
   */
  lemma LookupAgreesWithListing(w: World, l: seq<Found>, i: nat, at: nat)
    requires i < |l| && at < |l|
    requires Key(l[at].name) == Key(l[i].name) && SummaryAt(l, at).shadowedBy.None?
    ensures Resolved(w, l, l[i].name) == Ok(at) <==> IsPlain(w, l[i].name) && l[i].name != ""
  {
    var only := OneUnshadowed(l, i);
    StripKeepsPlain(w, l[i].name);
  }

  /** A skill that calls itself `/x` in its front matter is listed, and not found by that name. */
  lemma SlashedNameIsNotFound(w: World, e: DirEntry)
    requires e.isDir && e.hasSkillFile && w.frontmatterName(e.contents) == Some("/x")
    requires !w.isSpace('/') && !w.isSpace('x')
    ensures var l := Listed(w, [Root(SkillsDir, 0, [e])], 1);
            && |l| == 1 && l[0].name == "/x" && SummaryAt(l, 0).shadowedBy.None?
            && Resolved(w, l, "/x") == Err(NotFound)
  {
    ListOfOne(w, Root(SkillsDir, 0, [e]), Found("/x", e.path + "/SKILL.md", 0));
    var l := Listed(w, [Root(SkillsDir, 0, [e])], 1);
    SlashIsStripped(w, "/x", "x");
    assert FirstWith(l, 0, Key("x")).None? && |Key(l[0].name)| != |Key("x")|;
  }

  lemma {:induction false} SlashIsStripped(w: World, name: string, rest: string)
    requires name == "/" + rest && |rest| == 1 && rest[0] !in {'/', '$'}
    requires !w.isSpace('/') && !w.isSpace(rest[0])
    ensures Strip(w, name) == rest
  {
    assert name[0] == '/' && name[|name| - 1] == rest[0] && name[1..] == rest;
    assert TrimStart(w.isSpace, name) == name && TrimEnd(w.isSpace, name) == name;
    var slash, dollar := (c: char) => c == '/', (c: char) => c == '$';
    assert TrimStart(slash, name) == TrimStart(slash, rest) == rest;
    assert Strip(w, name) == TrimStart(dollar, rest);
  }

  lemma ListOfOne(w: World, root: Root, found: Found)
    requires |root.entries| == 1 && SkillIn(w, root, root.entries[0]) == Some(found)
    ensures Listed(w, [root], 1) == [found]
  {
    assert SkillsOf(w, root, 0) == [] && SkillsOf(w, root, 1) == [found];
    var none: seq<Found> := [];
    assert [found][..0] == none && Sort(none, ByName) == none;
    assert Sort([found], ByName) == [found];
    assert Listed(w, [root], 0) == [];
  }

  // --------------------------------------------------------------- the sort

  lemma ByNameIsTotal()
    ensures IsTotalOrder(ByName)
  {
    forall x, y
      ensures ByName(x, y) || ByName(y, x)
    {
      AtMostTotal(x.name, y.name);
    }
    forall x, y, z | ByName(x, y) && ByName(y, z)
      ensures ByName(x, z)
    {
      AtMostTransitive(x.name, y.name, z.name);
    }
  }

  function Named(name: string): (wanted: Found -> bool) {
    (f: Found) => f.name == name
  }

  /** Each root's skills are listed in name order, all of them, and those of one name in directory order. */
  lemma {:induction false} RootIsInOrder(w: World, root: Root, name: string)
    ensures var found := SkillsOf(w, root, |root.entries|);
            var listed := Sort(found, ByName);
            && IsSorted(listed, ByName) && multiset(listed) == multiset(found)
            && Filter(listed, Named(name)) == Filter(found, Named(name))
  {
    var found := SkillsOf(w, root, |root.entries|);
    ByNameIsTotal();
    SortSorts(found, ByName);
    SortIsStable(found, ByName, Named(name));
  }

  /** What a key finds in a root has the least name of all that have the key there. */
  lemma FirstIsLeast(w: World, root: Root, key: string, j: nat)
    requires var listed := Sort(SkillsOf(w, root, |root.entries|), ByName);
             FirstWith(listed, |listed|, key).Some? && j < |listed| && Key(listed[j].name) == key
    ensures var listed := Sort(SkillsOf(w, root, |root.entries|), ByName);
            var i := FirstWith(listed, |listed|, key).value;
            i <= j && AtMost(listed[i].name, listed[j].name)
  {
    RootIsInOrder(w, root, "");
  }
}
