/**
  Device profiles (raven/device_profiles.py): which profiles apply to a request, and what a device
  gets once they are sorted by precedence and folded over each other.
*/
module DeviceProfiles {
  import opened Wrappers
  import opened Sorting
  import opened Text

  const EVERYONE := 0
  const GROUP := 1
  const USER := 2
  const DEVICE := 3
  const STRING_CLASS := "class java.lang.String"

  datatype Target = Target(kind: string, value: string)
  datatype Setting = Setting(key: string, value: Option<string>, valueClass: Option<string>)
  datatype File = File(id: nat, zipPath: string, size: nat)

  /** updated: microseconds since datetime.min. */
  datatype Profile = Profile(id: nat, name: string, enabled: bool, onEnrollment: bool, onConnection: bool,
                             tool: Option<string>, everyone: bool, updated: Option<nat>,
                             targets: seq<Target>, settings: seq<Setting>, files: seq<File>)

  datatype Phase = Enrollment | Connection | Tool(tool: string)

  /** groups are those the user is in now. */
  datatype Request = Request(phase: Phase, username: Option<string>, uid: Option<string>, groups: set<string>)

  // --- match_level ---

  function TargetLevel(t: Target, r: Request): Option<nat> {
    if t.kind == "device" && r.uid.Some? && r.uid.value != "" && t.value == r.uid.value then Some(DEVICE)
    else if t.kind == "user" && r.username.Some? && r.username.value != "" && Lower(t.value) == Lower(r.username.value) then Some(USER)
    else if t.kind == "group" && t.value in r.groups then Some(GROUP)
    else None
  }

  /** One way the profile matches the request. */
  predicate Fits(p: Profile, r: Request, level: nat) {
    (level == EVERYONE && p.everyone) || exists t | t in p.targets :: TargetLevel(t, r) == Some(level)
  }

  ghost predicate IsLevel(p: Profile, r: Request, best: Option<nat>) {
    if best.None? then forall level: nat :: !Fits(p, r, level)
    else Fits(p, r, best.value) && forall level: nat :: Fits(p, r, level) ==> level <= best.value
  }

  /** The most specific way the profile matches, or None if it does not. */
  method MatchLevel(p: Profile, r: Request) returns (best: Option<nat>)
    ensures IsLevel(p, r, best)
  {
    best := if p.everyone then Some(EVERYONE) else None;
    for i := 0 to |p.targets|
      invariant best.None? ==> !p.everyone && forall j | 0 <= j < i :: TargetLevel(p.targets[j], r).None?
      invariant best.Some? ==> Fits(p, r, best.value)
      invariant best.Some? ==> forall j | 0 <= j < i :: TargetLevel(p.targets[j], r).Some? ==> TargetLevel(p.targets[j], r).value <= best.value
    {
      var level := TargetLevel(p.targets[i], r);
      if level.Some? && (best.None? || level.value > best.value) {
        best := level;
      }
    }
  }

  /** A device target counts for more than a user target, that for more than a group, and that for more than everyone. */
  lemma LevelIsMostSpecific(p: Profile, r: Request, best: Option<nat>)
    requires IsLevel(p, r, best)
    ensures best == if r.uid.Some? && r.uid.value != "" && exists t | t in p.targets :: t.kind == "device" && t.value == r.uid.value
                      then Some(3)
                    else if r.username.Some? && r.username.value != ""
                            && exists t | t in p.targets :: t.kind == "user" && Lower(t.value) == Lower(r.username.value)
                      then Some(2)
                    else if exists t | t in p.targets :: t.kind == "group" && t.value in r.groups then Some(1)
                    else if p.everyone then Some(0) else None
  {
    forall t | t in p.targets && TargetLevel(t, r).Some? ensures Fits(p, r, TargetLevel(t, r).value) {
    }
    assert p.everyone ==> Fits(p, r, EVERYONE);
  }

  // --- matching_profiles ---

  /** The query's WHERE clause. */
  predicate Applies(p: Profile, phase: Phase) {
    && p.enabled
    && match phase
       case Tool(tool) => tool != "" && p.tool.Some? && Lower(p.tool.value) == Lower(Strip(tool))
       case Enrollment => (p.tool.None? || p.tool.value == "") && p.onEnrollment
       case Connection => (p.tool.None? || p.tool.value == "") && p.onConnection
  }

  datatype Match = Match(level: nat, profile: Profile)

  function When(p: Profile): nat {
    if p.updated.Some? then p.updated.value else 0
  }

  /** The sort key: (level, updated_at or datetime.min, id). */
  predicate Weaker(a: Match, b: Match) {
    || a.level < b.level
    || (a.level == b.level && When(a.profile) < When(b.profile))
    || (a.level == b.level && When(a.profile) == When(b.profile) && a.profile.id < b.profile.id)
  }

  ghost predicate DistinctIds(table: seq<Profile>) {
    forall i, j | 0 <= i < j < |table| :: table[i].id != table[j].id
  }

  ghost predicate IsMatch(table: seq<Profile>, r: Request, m: Match) {
    m.profile in table && Applies(m.profile, r.phase) && IsLevel(m.profile, r, Some(m.level))
  }

  /**
    A profile matches exactly if it is enabled, meant for the phase and targets the request: one that belongs to
    a tool is for that tool alone, whatever the case of its name, and any other for the phases it is switched on for.
  */
  lemma MatchIff(table: seq<Profile>, r: Request, m: Match)
    ensures IsMatch(table, r, m) <==>
              && m.profile in table && m.profile.enabled && IsLevel(m.profile, r, Some(m.level))
              && match r.phase
                 case Enrollment => (m.profile.tool.None? || m.profile.tool.value == "") && m.profile.onEnrollment
                 case Connection => (m.profile.tool.None? || m.profile.tool.value == "") && m.profile.onConnection
                 case Tool(tool) => tool != "" && m.profile.tool.Some? && Lower(m.profile.tool.value) == Lower(Strip(tool))
  {
  }

  /** The matching profiles with their levels, least specific first. */
  method MatchingProfiles(table: seq<Profile>, r: Request) returns (matches: seq<Match>)
    requires DistinctIds(table)
    ensures forall m :: m in matches <==> IsMatch(table, r, m)
    ensures IsSorted(Weaker, matches)
    ensures forall i, j | 0 <= i < j < |matches| ::
              var a, b := matches[i], matches[j];
              var x, y := if a.profile.updated.Some? then a.profile.updated.value else 0, if b.profile.updated.Some? then b.profile.updated.value else 0;
              a.level < b.level || (a.level == b.level && (x < y || (x == y && a.profile.id < b.profile.id)))
  {
    matches := [];
    for i := 0 to |table|
      invariant forall m | m in matches :: IsMatch(table[..i], r, m)
      invariant forall m | IsMatch(table[..i], r, m) :: m in matches
      invariant forall j, k | 0 <= j < k < |matches| :: matches[j].profile.id != matches[k].profile.id
    {
      assert table[..i + 1] == table[..i] + [table[i]];
      if Applies(table[i], r.phase) {
        var level := MatchLevel(table[i], r);
        if level.Some? {
          forall j | 0 <= j < |matches| ensures matches[j].profile.id != table[i].id {
            assert IsMatch(table[..i], r, matches[j]);
          }
          matches := matches + [Match(level.value, table[i])];
        }
      }
    }
    assert table[..|table|] == table;
    SortBySorts(matches, Weaker);
    matches := SortBy(matches, Weaker);
  }

  // --- resolve_settings, resolve_files ---

  /** The last entry of a profile with this key. */
  function LastWith<E>(entries: seq<E>, keyOf: E -> string, key: string): Option<E> {
    if entries == [] then None
    else if keyOf(entries[|entries| - 1]) == key then Some(entries[|entries| - 1])
    else LastWith(entries[..|entries| - 1], keyOf, key)
  }

  /** Which entries of a profile are resolved, and by which key they override each other. */
  datatype Part<!E> = Part(entries: Profile -> seq<E>, keyOf: E -> string)

  function Own<E>(m: Match, part: Part<E>, key: string): Option<E> {
    LastWith(part.entries(m.profile), part.keyOf, key)
  }

  datatype Resolved<E> = Resolved(key: string, entry: E, profile: Profile)

  /** The entry that holds after folding: that of the last profile in order that has the key. */
  function Folded<E>(ordered: seq<Match>, part: Part<E>, key: string): Option<Resolved<E>> {
    if ordered == [] then None
    else
      var last := ordered[|ordered| - 1];
      var own := Own(last, part, key);
      if own.Some? then Some(Resolved(key, own.value, last.profile))
      else Folded(ordered[..|ordered| - 1], part, key)
  }

  /** The profile with the greatest (level, updated_at, id) of those that match and have the key. */
  ghost predicate IsWinner<E>(table: seq<Profile>, r: Request, part: Part<E>, key: string, m: Match) {
    && IsMatch(table, r, m) && Own(m, part, key).Some?
    && forall n | IsMatch(table, r, n) && Own(n, part, key).Some? :: n == m || Weaker(n, m)
  }

  lemma {:induction false} FoldedIsLast<E>(ordered: seq<Match>, part: Part<E>, key: string)
    requires IsSorted(Weaker, ordered)
    ensures Folded(ordered, part, key).None? ==> forall n | n in ordered :: Own(n, part, key).None?
    ensures Folded(ordered, part, key).Some? ==>
              exists m | m in ordered && Own(m, part, key).Some? ::
                && Folded(ordered, part, key).value == Resolved(key, Own(m, part, key).value, m.profile)
                && forall n | n in ordered && Own(n, part, key).Some? :: n == m || Weaker(n, m)
  {
    if ordered != [] {
      var front, last := ordered[..|ordered| - 1], ordered[|ordered| - 1];
      assert ordered == front + [last];
      FoldedIsLast(front, part, key);
      if Own(last, part, key).Some? {
        forall n | n in ordered ensures n == last || Weaker(n, last) {
          var k :| 0 <= k < |ordered| && ordered[k] == n;
        }
        assert last in ordered;
      } else if Folded(front, part, key).Some? {
        var m :| m in front && Own(m, part, key).Some?
              && Folded(front, part, key).value == Resolved(key, Own(m, part, key).value, m.profile)
              && forall n | n in front && Own(n, part, key).Some? :: n == m || Weaker(n, m);
        assert m in ordered;
      }
    }
  }

  /** The fold: later profiles overwrite, and within a profile later entries do. */
  method Merge<E>(ordered: seq<Match>, part: Part<E>) returns (merged: map<string, Resolved<E>>)
    ensures forall key :: (if key in merged then Some(merged[key]) else None) == Folded(ordered, part, key)
  {
    merged := map[];
    for i := 0 to |ordered|
      invariant forall key :: (if key in merged then Some(merged[key]) else None) == Folded(ordered[..i], part, key)
    {
      var profile, entries := ordered[i].profile, part.entries(ordered[i].profile);
      ghost var before := merged;
      for j := 0 to |entries|
        invariant forall key ::
          (if key in merged then Some(merged[key]) else None)
          == if LastWith(entries[..j], part.keyOf, key).Some?
             then Some(Resolved(key, LastWith(entries[..j], part.keyOf, key).value, profile))
             else if key in before then Some(before[key]) else None
      {
        assert entries[..j + 1][..j] == entries[..j];
        var key := part.keyOf(entries[j]);
        merged := merged[key := Resolved(key, entries[j], profile)];
      }
      assert entries[..|entries|] == entries;
      assert ordered[..i + 1][..i] == ordered[..i];
    }
    assert ordered[..|ordered|] == ordered;
  }

  /** sorted(merged) */
  method Keys(merged: set<string>) returns (keys: seq<string>)
    ensures IsSorted(Less, keys) && forall key :: key in keys <==> key in merged
  {
    keys := [];
    var todo := merged;
    while todo != {}
      invariant todo <= merged && forall key :: key in keys <==> key in merged - todo
      invariant forall i, j | 0 <= i < j < |keys| :: keys[i] != keys[j]
      decreases |todo|
    {
      var key :| key in todo;
      assert forall i | 0 <= i < |keys| :: keys[i] in keys;
      keys, todo := keys + [key], todo - {key};
    }
    forall i, j | 0 <= i < j < |keys| ensures Less(keys[i], keys[j]) || Less(keys[j], keys[i]) {
      LessIsTotal(keys[i], keys[j]);
    }
    LessIsStrict();
    SortBySorts(keys, Less);
    keys := SortBy(keys, Less);
  }

  predicate ByKey<E>(a: Resolved<E>, b: Resolved<E>) {
    Less(a.key, b.key)
  }

  /** The entries under the keys, in their order. */
  method Picked<E>(merged: map<string, Resolved<E>>, keys: seq<string>) returns (out': seq<Resolved<E>>)
    requires forall j | 0 <= j < |keys| :: keys[j] in merged
    ensures |out'| == |keys| && forall j | 0 <= j < |keys| :: out'[j] == merged[keys[j]]
  {
    out' := [];
    for i := 0 to |keys|
      invariant |out'| == i && forall j | 0 <= j < i :: out'[j] == merged[keys[j]]
    {
      out' := out' + [merged[keys[i]]];
    }
  }

  /** What a device gets: for each key that any matching profile has, the winner's entry, sorted by key. */
  ghost predicate IsResolution<E>(table: seq<Profile>, r: Request, part: Part<E>, out': seq<Resolved<E>>) {
    && (forall i, j | 0 <= i < j < |out'| :: Less(out'[i].key, out'[j].key))
    && (forall o | o in out' :: exists m :: IsWinner(table, r, part, o.key, m)
                                            && o == Resolved(o.key, Own(m, part, o.key).value, m.profile))
    && (forall m, key | IsMatch(table, r, m) && Own(m, part, key).Some? :: exists o :: o in out' && o.key == key)
  }

  method Resolve<E>(table: seq<Profile>, r: Request, part: Part<E>) returns (out': seq<Resolved<E>>)
    requires DistinctIds(table)
    ensures IsResolution(table, r, part, out')
  {
    var ordered := MatchingProfiles(table, r);
    var merged := Merge(ordered, part);
    var keys := Keys(merged.Keys);
    assert forall j | 0 <= j < |keys| :: keys[j] in keys;
    out' := Picked(merged, keys);
    SortedFoldResolves(table, r, part, ordered, merged, keys, out');
  }

  lemma SortedFoldResolves<E>(table: seq<Profile>, r: Request, part: Part<E>, ordered: seq<Match>,
                              merged: map<string, Resolved<E>>, keys: seq<string>, out': seq<Resolved<E>>)
    requires (forall m :: m in ordered <==> IsMatch(table, r, m)) && IsSorted(Weaker, ordered)
    requires forall key :: (if key in merged then Some(merged[key]) else None) == Folded(ordered, part, key)
    requires IsSorted(Less, keys) && forall key :: key in keys <==> key in merged
    requires |out'| == |keys| && forall j | 0 <= j < |keys| :: keys[j] in merged && out'[j] == merged[keys[j]]
    ensures IsResolution(table, r, part, out')
  {
    forall key | key in merged
      ensures merged[key].key == key
      ensures exists m :: IsWinner(table, r, part, key, m) && merged[key] == Resolved(key, Own(m, part, key).value, m.profile)
    {
      FoldedIsLast(ordered, part, key);
      var m :| m in ordered && Own(m, part, key).Some?
            && Folded(ordered, part, key).value == Resolved(key, Own(m, part, key).value, m.profile)
            && forall n | n in ordered && Own(n, part, key).Some? :: n == m || Weaker(n, m);
      assert IsWinner(table, r, part, key, m);
    }
    forall m, key | IsMatch(table, r, m) && Own(m, part, key).Some?
      ensures exists o :: o in out' && o.key == key
    {
      FoldedIsLast(ordered, part, key);
      assert m in ordered;
      assert key in keys;
      var j :| 0 <= j < |keys| && keys[j] == key;
      assert out'[j] in out';
    }
  }

  /** The order in which the database returns the profiles makes no difference. */
  lemma ResolutionIgnoresQueryOrder<E(!new)>(t: seq<Profile>, u: seq<Profile>, r: Request, part: Part<E>,
                                            a: seq<Resolved<E>>, b: seq<Resolved<E>>)
    requires forall p :: p in t <==> p in u
    requires IsResolution(t, r, part, a) && IsResolution(u, r, part, b)
    ensures a == b
  {
    SameWinners(t, u, r, part, a, b);
    SameWinners(u, t, r, part, b, a);
    LessIsStrict();
    SortedIsUnique(a, b, ByKey<E>);
  }

  lemma SameWinners<E(!new)>(t: seq<Profile>, u: seq<Profile>, r: Request, part: Part<E>,
                             a: seq<Resolved<E>>, b: seq<Resolved<E>>)
    requires forall p :: p in t <==> p in u
    requires IsResolution(t, r, part, a) && IsResolution(u, r, part, b)
    ensures forall o | o in a :: o in b
  {
  }

  lemma {:induction false} LastWithHasKey<E>(entries: seq<E>, keyOf: E -> string, key: string)
    ensures LastWith(entries, keyOf, key).Some? ==>
              LastWith(entries, keyOf, key).value in entries && keyOf(LastWith(entries, keyOf, key).value) == key
  {
    if entries != [] {
      LastWithHasKey(entries[..|entries| - 1], keyOf, key);
    }
  }

  function SettingsPart(): Part<Setting> {
    Part((p: Profile) => p.settings, (s: Setting) => s.key)
  }

  /** Files override each other by zip path, ignoring case. */
  function FilesPart(): Part<File> {
    Part((p: Profile) => p.files, (f: File) => Lower(f.zipPath))
  }

  datatype SettingOut = SettingOut(key: string, value: string, valueClass: string, profile: nat)

  function ShowSetting(o: Resolved<Setting>): SettingOut {
    SettingOut(o.key,
               if o.entry.value.Some? then o.entry.value.value else "",
               if o.entry.valueClass.Some? && o.entry.valueClass.value != "" then o.entry.valueClass.value else STRING_CLASS,
               o.profile.id)
  }

  /** resolve_settings */
  method ResolveSettings(table: seq<Profile>, r: Request) returns (shown: seq<SettingOut>)
    requires DistinctIds(table)
    ensures exists resolved: seq<Resolved<Setting>> ::
              && IsResolution(table, r, SettingsPart(), resolved) && shown == Shown(resolved)
              && |shown| == |resolved|
              && forall i | 0 <= i < |resolved| ::
                   var s := resolved[i].entry;
                   && shown[i].key == s.key && shown[i].profile == resolved[i].profile.id && s in resolved[i].profile.settings
                   && shown[i].value == (if s.value.Some? then s.value.value else "")
                   && shown[i].valueClass
                      == if s.valueClass.Some? && s.valueClass.value != "" then s.valueClass.value else "class java.lang.String"
  {
    var resolved := Resolve(table, r, SettingsPart());
    shown := Shown(resolved);
    forall i | 0 <= i < |resolved|
      ensures resolved[i].entry.key == resolved[i].key && resolved[i].entry in resolved[i].profile.settings
    {
      assert resolved[i] in resolved;
      var m :| IsWinner(table, r, SettingsPart(), resolved[i].key, m)
               && resolved[i] == Resolved(resolved[i].key, Own(m, SettingsPart(), resolved[i].key).value, m.profile);
      LastWithHasKey(SettingsPart().entries(m.profile), SettingsPart().keyOf, resolved[i].key);
    }
  }

  function Shown(resolved: seq<Resolved<Setting>>): seq<SettingOut> {
    seq(|resolved|, i requires 0 <= i < |resolved| => ShowSetting(resolved[i]))
  }

  /** resolve_files */
  method ResolveFiles(table: seq<Profile>, r: Request) returns (resolved: seq<Resolved<File>>)
    requires DistinctIds(table)
    ensures IsResolution(table, r, FilesPart(), resolved)
    ensures forall i | 0 <= i < |resolved| ::
              resolved[i].key == Lower(resolved[i].entry.zipPath) && resolved[i].entry in resolved[i].profile.files
    ensures forall i, j | 0 <= i < j < |resolved| :: Lower(resolved[i].entry.zipPath) != Lower(resolved[j].entry.zipPath)
  {
    resolved := Resolve(table, r, FilesPart());
    forall i | 0 <= i < |resolved|
      ensures resolved[i].key == Lower(resolved[i].entry.zipPath) && resolved[i].entry in resolved[i].profile.files
    {
      assert resolved[i] in resolved;
      var m :| IsWinner(table, r, FilesPart(), resolved[i].key, m)
               && resolved[i] == Resolved(resolved[i].key, Own(m, FilesPart(), resolved[i].key).value, m.profile);
      LastWithHasKey(FilesPart().entries(m.profile), FilesPart().keyOf, resolved[i].key);
    }
    LessIsStrict();
  }

  // --- add_profile_file ---

  datatype Limits = Limits(maxFileBytes: int, maxTotalBytes: int, maxFiles: int)
  datatype AddError = TooManyFiles | FileTooBig | TotalTooBig | EmptyFile

  function Total(files: seq<File>): nat {
    if files == [] then 0 else Total(files[..|files| - 1]) + files[|files| - 1].size
  }

  predicate SamePath(f: File, path: string) {
    Lower(f.zipPath) == Lower(path)
  }

  ghost predicate DistinctPaths(files: seq<File>) {
    forall i, j | 0 <= i < j < |files| :: Lower(files[i].zipPath) != Lower(files[j].zipPath)
  }

  /** The files without the one at this path. */
  function Others(files: seq<File>, path: string): seq<File> {
    if files == [] then []
    else
      var rest := Others(files[..|files| - 1], path);
      if SamePath(files[|files| - 1], path) then rest else rest + [files[|files| - 1]]
  }

  function Sum(chunks: seq<nat>): nat {
    if chunks == [] then 0 else Sum(chunks[..|chunks| - 1]) + chunks[|chunks| - 1]
  }

  ghost predicate WithinLimits(files: seq<File>, limits: Limits) {
    && |files| <= limits.maxFiles && Total(files) <= limits.maxTotalBytes
    && forall f | f in files :: 0 < f.size <= limits.maxFileBytes
  }

  /**
    Reading the upload chunk by chunk: it is refused as soon as it passes the cap, so exactly the
    uploads that fit in full are stored, whatever the chunks.
  */
  method ReadUpload(chunks: seq<nat>, room: int, limits: Limits) returns (r: Result<nat, AddError>)
    requires forall c | c in chunks :: c > 0
    ensures r.Success? <==> 0 < Sum(chunks) <= limits.maxFileBytes && Sum(chunks) <= room
    ensures r.Success? ==> r.value == Sum(chunks)
    ensures r.Failure? && r.error.EmptyFile? ==> Sum(chunks) == 0
    ensures r.Failure? && r.error.FileTooBig? ==> Sum(chunks) > limits.maxFileBytes
    ensures r.Failure? && r.error.TotalTooBig? ==> Sum(chunks) > room
  {
    var cap := if limits.maxFileBytes < room then limits.maxFileBytes else room;
    var size := 0;
    for i := 0 to |chunks|
      invariant size == Sum(chunks[..i]) && (size <= cap || size == 0)
    {
      assert chunks[..i + 1][..i] == chunks[..i];
      size := size + chunks[i];
      if size > cap {
        SumGrows(chunks, i + 1);
        assert chunks[i] in chunks;
        return Failure(if size > limits.maxFileBytes then FileTooBig else TotalTooBig);
      }
    }
    assert chunks[..|chunks|] == chunks;
    return if size == 0 then Failure(EmptyFile) else Success(size);
  }

  lemma {:induction false} SumGrows(chunks: seq<nat>, i: nat)
    requires i <= |chunks|
    ensures Sum(chunks[..i]) <= Sum(chunks)
    decreases |chunks|
  {
    if i == |chunks| {
      assert chunks[..i] == chunks;
    } else {
      assert chunks[..|chunks| - 1][..i] == chunks[..i];
      SumGrows(chunks[..|chunks| - 1], i);
    }
  }

  lemma {:induction false} OthersMembers(files: seq<File>, path: string)
    ensures forall f :: f in Others(files, path) <==> f in files && !SamePath(f, path)
  {
    if files != [] {
      var front, last := files[..|files| - 1], files[|files| - 1];
      assert files == front + [last];
      OthersMembers(front, path);
    }
  }

  lemma {:induction false} OthersAreFewer(files: seq<File>, path: string)
    ensures |Others(files, path)| <= |files| && Total(Others(files, path)) <= Total(files)
  {
    if files != [] {
      var front, last := files[..|files| - 1], files[|files| - 1];
      OthersAreFewer(front, path);
      var rest := Others(front, path);
      assert (rest + [last])[..|rest|] == rest;
    }
  }

  lemma {:induction false} OthersAreDistinct(files: seq<File>, path: string)
    requires DistinctPaths(files)
    ensures DistinctPaths(Others(files, path))
  {
    if files != [] {
      var front, last := files[..|files| - 1], files[|files| - 1];
      OthersAreDistinct(front, path);
      OthersMembers(front, path);
      var rest := Others(front, path);
      forall i | 0 <= i < |rest| ensures Lower(rest[i].zipPath) != Lower(last.zipPath) {
        assert rest[i] in front;
        var k :| 0 <= k < |front| && front[k] == rest[i];
        assert files[k] == rest[i];
      }
    }
  }

  lemma AddedFile(others: seq<File>, file: File)
    requires DistinctPaths(others) && forall f | f in others :: !SamePath(f, file.zipPath)
    ensures DistinctPaths(others + [file]) && Total(others + [file]) == Total(others) + file.size
    ensures forall f :: f in others + [file] <==> f in others || f == file
  {
    forall i | 0 <= i < |others| ensures !SamePath(others[i], file.zipPath) {
      assert others[i] in others;
    }
    assert (others + [file])[..|others|] == others;
  }

  /** A profile's file list; adding to it replaces the file at the same path. */
  class FileList {
    var files: seq<File>

    constructor (files: seq<File>)
      ensures this.files == files
    {
      this.files := files;
    }

    /** add_profile_file, from the safe path on: every limit holds after an add, and nothing changes on a refusal. */
    method Add(path: string, id: nat, chunks: seq<nat>, limits: Limits) returns (r: Result<File, AddError>)
      requires DistinctPaths(files) && forall c | c in chunks :: c > 0
      modifies this
      ensures DistinctPaths(files)
      ensures r.Success? ==> r.value == File(id, path, Sum(chunks)) && files == Others(old(files), path) + [r.value]
      ensures r.Failure? ==> files == old(files)
      ensures r.Success? <==>
                && |Others(old(files), path)| < limits.maxFiles
                && 0 < Sum(chunks) <= limits.maxFileBytes
                && Total(Others(old(files), path)) + Sum(chunks) <= limits.maxTotalBytes
      ensures WithinLimits(old(files), limits) ==> WithinLimits(files, limits)
    {
      var others := Others(files, path);
      OthersMembers(files, path);
      OthersAreFewer(files, path);
      OthersAreDistinct(files, path);
      if |others| >= limits.maxFiles {
        return Failure(TooManyFiles);
      }
      var size := ReadUpload(chunks, limits.maxTotalBytes - Total(others), limits);
      if size.Failure? {
        return Failure(size.error);
      }
      var file := File(id, path, size.value);
      AddedFile(others, file);
      files := others + [file];
      return Success(file);
    }
  }
}
