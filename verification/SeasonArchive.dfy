/** backend/internal/season: the end-of-season job. It copies every recognised supporter ZSET
    into season_archive, insert-if-absent, and only then deletes the live keys. */
module SeasonArchive {
  import opened Prelude
  import opened Text

  datatype ArchiveEntry = ArchiveEntry(member: string, score: real)

  type ZSet = seq<ArchiveEntry>

  type LiveKeys = map<string, ZSet>

  datatype ArchiveRow = ArchiveRow(scope: string, entries: ZSet, memberCount: int)

  // season_archive, UNIQUE (season_id, redis_key)
  type Archive = map<(string, string), ArchiveRow>

  // ---------------------------------------------------------------- keys

  const PREFIX := "lb:"
  const SUFFIX := ":supporters"

  // SCAN MATCH lb:*:supporters
  predicate Scanned(key: string) {
    |key| >= |PREFIX| + |SUFFIX| && key[..|PREFIX|] == PREFIX && key[|key| - |SUFFIX|..] == SUFFIX
  }

  // scopeTypeFromKey
  function ScopeType(key: string): Option<string> {
    var parts := Split(key, ':');
    if |parts| < 3 || parts[0] != "lb" || parts[|parts| - 1] != "supporters" then None
    else if parts[1] in {"global", "tribe", "province", "derby", "tribe_rank"} then Some(parts[1])
    else None
  }

  predicate Recognised(key: string) { ScopeType(key).Some? }

  // The CHECK on season_archive.scope_type (migrations/0017_season_archive.up.sql).
  predicate AcceptedScope(scope: string) {
    scope in {"global", "tribe", "province", "derby"}
  }

  lemma {:induction false} SplitOff(word: string, rest: string, sep: char)
    requires sep !in word
    ensures Split(word + [sep] + rest, sep) == [word] + Split(rest, sep)
  {
    var s := word + [sep] + rest;
    if word == [] {
      assert s[1..] == rest;
    } else {
      SplitOff(word[1..], rest, sep);
      assert s[1..] == word[1..] + [sep] + rest;
      assert s[0] == word[0] != sep;
      assert word == [word[0]] + word[1..];
    }
  }

  lemma {:induction false} SplitWord(word: string, sep: char)
    requires sep !in word
    ensures Split(word, sep) == [word]
  {
    if word != [] {
      SplitWord(word[1..], sep);
      assert word == [word[0]] + word[1..];
    }
  }

  // lb:{scope}:supporters
  function BoardKey(scope: string): string {
    "lb" + [':'] + (scope + [':'] + "supporters")
  }

  lemma ScopeOfBoard(scope: string)
    requires ':' !in scope
    ensures Split(BoardKey(scope), ':') == ["lb", scope, "supporters"]
  {
    SplitWord("supporters", ':');
    SplitOff(scope, "supporters", ':');
    SplitOff("lb", scope + [':'] + "supporters", ':');
  }

  // The tribe-rank board is recognised by the job but refused by the table.
  lemma TribeRankIsRefused()
    ensures ScopeType(BoardKey("tribe_rank")) == Some("tribe_rank") && !AcceptedScope("tribe_rank")
  {
    ScopeOfBoard("tribe_rank");
  }

  // lb:{scope}:{middle}:supporters
  function PartBoardKey(scope: string, middle: string): string {
    "lb" + [':'] + (scope + [':'] + (middle + [':'] + "supporters"))
  }

  // The boards of the five scopes are recognised, with and without parts in between.
  lemma ScopesAreRecognised(scope: string, middle: string)
    requires scope in {"global", "tribe", "province", "derby", "tribe_rank"}
    ensures ScopeType(BoardKey(scope)) == Some(scope) && ScopeType(PartBoardKey(scope, middle)) == Some(scope)
  {
    NoColons();
    PartsOfPartBoard(scope, middle);
    hide Split, BoardKey, PartBoardKey;
    ScopeOfBoard(scope);
  }

  lemma PartsOfPartBoard(scope: string, middle: string)
    requires ':' !in scope
    ensures Split(PartBoardKey(scope, middle), ':') == ["lb", scope] + Split(middle, ':') + ["supporters"]
  {
    hide Split;
    SplitWord("supporters", ':');
    SplitConcat(middle, "supporters", ':');
    SplitOff(scope, middle + [':'] + "supporters", ':');
    SplitOff("lb", scope + [':'] + (middle + [':'] + "supporters"), ':');
    assert ["lb"] + ([scope] + (Split(middle, ':') + ["supporters"])) == ["lb", scope] + Split(middle, ':') + ["supporters"];
  }

  lemma NoColons()
    ensures forall scope :: scope in {"global", "tribe", "province", "derby", "tribe_rank"} ==> ':' !in scope
  {
  }

  // And no others: a recognised key is of one of these scopes and of one of these two forms.
  lemma RecognisedForms(key: string, scope: string)
    requires ScopeType(key) == Some(scope)
    ensures scope in {"global", "tribe", "province", "derby", "tribe_rank"}
    ensures key == BoardKey(scope) || exists middle :: key == PartBoardKey(scope, middle)
  {
    hide Split, Join;
    var parts := Split(key, ':');
    SplitMeaning(key, ':');
    var n := |parts|;
    JoinFirst(parts, ':');
    JoinFirst(parts[1..], ':');
    assert parts[1..][1..] == parts[2..];
    if n == 3 {
      assert parts[2..] == ["supporters"];
      JoinOne("supporters", ':');
    } else {
      JoinLast(parts[2..], ':');
      assert parts[2..][..n - 3] == parts[2..n - 1];
      assert key == PartBoardKey(scope, Join(parts[2..n - 1], ':'));
    }
  }

  lemma JoinFirst(parts: seq<string>, sep: char)
    requires |parts| >= 2
    ensures Join(parts, sep) == parts[0] + [sep] + Join(parts[1..], sep)
  {
  }

  lemma JoinOne(part: string, sep: char)
    ensures Join([part], sep) == part
  {
  }

  lemma {:induction false} JoinLast(parts: seq<string>, sep: char)
    requires |parts| >= 2
    ensures Join(parts, sep) == Join(parts[..|parts| - 1], sep) + [sep] + parts[|parts| - 1]
    decreases |parts|
  {
    var n := |parts|;
    if n == 2 {
      assert parts[..1] == [parts[0]] && parts[1..] == [parts[1]];
    } else {
      JoinLast(parts[1..], sep);
      assert parts[1..][..n - 2] == parts[..n - 1][1..];
    }
  }

  // The scan pattern misses no key the job would recognise.
  lemma RecognisedIsScanned(key: string)
    requires Recognised(key)
    ensures Scanned(key)
  {
    hide Split;
    var scope := ScopeType(key).value;
    RecognisedForms(key, scope);
    if key == BoardKey(scope) {
      Enclosed(scope);
    } else {
      var middle :| key == PartBoardKey(scope, middle);
      assert key == "lb" + [':'] + ((scope + [':'] + middle) + [':'] + "supporters");
      Enclosed(scope + [':'] + middle);
    }
  }

  lemma Enclosed(text: string)
    ensures Scanned("lb" + [':'] + (text + [':'] + "supporters"))
  {
    var key := "lb" + [':'] + (text + [':'] + "supporters");
    assert key[..3] == "lb:";
    assert key[|key| - 11..] == ":supporters";
  }

  // The archive takes the boards of every recognised scope but the tribe ranking.
  lemma AcceptedScopes(key: string)
    requires Recognised(key)
    ensures AcceptedScope(ScopeType(key).value) <==> ScopeType(key).value != "tribe_rank"
  {
  }

  // ---------------------------------------------------------------- one run

  datatype Outcome = Finished | Crashed | NoSeason | InsertRejected

  function RowFor(live: LiveKeys, key: string): ArchiveRow
    requires key in live && Recognised(key)
  {
    ArchiveRow(ScopeType(key).value, live[key], |live[key]|)
  }

  ghost function Unrecognised(live: LiveKeys): LiveKeys {
    map key | key in live && !Recognised(key) :: live[key]
  }

  // Rows are only ever added, each a copy of a live recognised key; live keys go only when the
  // run finishes, and then all the recognised ones, each with a row to its name.
  ghost predicate RunPost(live: LiveKeys, archive: Archive, season: string, live': LiveKeys, archive': Archive, o: Outcome) {
    && (forall k :: k in archive ==> k in archive' && archive'[k] == archive[k])
    && (forall k :: k in archive' && k !in archive ==>
          k.0 == season && k.1 in live && Recognised(k.1) && archive'[k] == RowFor(live, k.1))
    && (o != Finished ==> live' == live)
    && (o == Finished ==>
          && live' == Unrecognised(live)
          && forall key :: key in live && Recognised(key) ==> (season, key) in archive')
  }

  class Runner {
    var live: LiveKeys
    var archive: Archive

    constructor (live: LiveKeys)
      ensures this.live == live && archive == map[]
    {
      this.live, archive := live, map[];
    }

    // store.go InsertArchive: ON CONFLICT DO NOTHING. The CHECK comes first.
    method InsertArchive(season: string, key: string, scope: string, entries: ZSet) returns (ok: bool)
      modifies this`archive
      ensures ok <==> AcceptedScope(scope)
      ensures archive == if ok && (season, key) !in old(archive)
                         then old(archive)[(season, key) := ArchiveRow(scope, entries, |entries|)] else old(archive)
    {
      if !AcceptedScope(scope) { return false; }
      if (season, key) !in archive {
        archive := archive[(season, key) := ArchiveRow(scope, entries, |entries|)];
      }
      return true;
    }

    // `keys` is what SCAN returned: every matching live key, possibly more than once. The
    // process dies before handling key number `stop`, or, when stop == |keys|, before the DEL.
    method Run(season: string, keys: seq<string>, stop: nat, dryRun: bool) returns (o: Outcome)
      requires forall key :: key in keys <==> key in live && Scanned(key)
      modifies this
      ensures dryRun ==> live == old(live) && archive == old(archive)
      ensures !dryRun ==> RunPost(old(live), old(archive), season, live, archive, o)
      ensures !dryRun ==> (o == Finished <==>
        && TrimSpace(season) != "" && stop > |keys|
        && forall key :: key in old(live) && Recognised(key) ==> AcceptedScope(ScopeType(key).value))
    {
      if TrimSpace(season) == "" { return NoSeason; }
      if dryRun { return Finished; }
      var archived: set<string> := {};
      var i := 0;
      while i < |keys|
        invariant 0 <= i <= |keys| && i <= stop && live == old(live)
        invariant RunPost(old(live), old(archive), season, live, archive, Crashed)
        invariant forall key :: key in archived <==> key in keys[..i] && Recognised(key)
        invariant forall key :: key in archived ==> (season, key) in archive && AcceptedScope(ScopeType(key).value)
      {
        if i == stop { return Crashed; }
        var key := keys[i];
        var scope := ScopeType(key);
        if scope.Some? {
          var ok := InsertArchive(season, key, scope.value, live[key]);
          if !ok {
            assert key in old(live) && Recognised(key);
            return InsertRejected;
          }
          archived := archived + {key};
        }
        assert keys[..i + 1] == keys[..i] + [key];
        i := i + 1;
      }
      assert keys[..i] == keys;
      if stop == |keys| { return Crashed; }
      forall key | key in live && Recognised(key) ensures key in archived {
        RecognisedIsScanned(key);
      }
      live := live - archived;
      assert live == Unrecognised(old(live));
      o := Finished;
    }
  }

  // ---------------------------------------------------------------- any number of runs

  datatype Moment = Moment(live: LiveKeys, archive: Archive)

  // Runs of one season, crashed or not, with no score written in between.
  ghost predicate SeasonRuns(season: string, ms: seq<Moment>, os: seq<Outcome>) {
    && |ms| == |os| + 1
    && (forall k :: k in ms[0].archive ==> k.0 != season)
    && forall i :: 0 <= i < |os| ==> RunPost(ms[i].live, ms[i].archive, season, ms[i + 1].live, ms[i + 1].archive, os[i])
  }

  // Nothing recognised is ever lost: a key that has gone has its row, and every row of the
  // season is a copy of the board as it stood when the season ended.
  ghost predicate Preserved(season: string, start: LiveKeys, m: Moment) {
    && (m.live == start || m.live == Unrecognised(start))
    && (forall key :: (season, key) in m.archive ==>
          key in start && Recognised(key) && m.archive[(season, key)] == RowFor(start, key))
    && (forall key :: key in start && key !in m.live ==> Recognised(key) && (season, key) in m.archive)
  }

  lemma RunPreserves(season: string, start: LiveKeys, m: Moment, m': Moment, o: Outcome)
    requires Preserved(season, start, m) && RunPost(m.live, m.archive, season, m'.live, m'.archive, o)
    ensures Preserved(season, start, m')
    ensures o == Finished ==> m'.live == Unrecognised(start)
  {
    forall key | (season, key) in m'.archive
      ensures key in start && Recognised(key) && m'.archive[(season, key)] == RowFor(start, key)
    {
      if (season, key) in m.archive { assert m'.archive[(season, key)] == m.archive[(season, key)]; }
    }
  }

  lemma {:induction false} CrashesLoseNothing(season: string, ms: seq<Moment>, os: seq<Outcome>, i: nat)
    requires SeasonRuns(season, ms, os) && i < |ms|
    ensures Preserved(season, ms[0].live, ms[i])
    ensures forall key :: key in ms[0].live && key !in ms[i].live ==>
      Recognised(key) && (season, key) in ms[i].archive && ms[i].archive[(season, key)] == RowFor(ms[0].live, key)
    ensures forall key :: key in ms[i].live ==> key in ms[0].live && ms[i].live[key] == ms[0].live[key]
    ensures i > 0 && os[i - 1] == Finished ==> ms[i].live == Unrecognised(ms[0].live)
  {
    if i > 0 {
      CrashesLoseNothing(season, ms, os, i - 1);
      RunPreserves(season, ms[0].live, ms[i - 1], ms[i], os[i - 1]);
    }
  }

  // When scores may have been written since the season's first run, a finished run still keeps
  // a board exactly when the season holds no older, different copy of it.
  lemma FinishedRunKeepsBoardIff(season: string, m: Moment, m': Moment, key: string)
    requires RunPost(m.live, m.archive, season, m'.live, m'.archive, Finished)
    requires key in m.live && Recognised(key)
    ensures key !in m'.live && (season, key) in m'.archive
    ensures m'.archive[(season, key)].entries == m.live[key] <==>
      ((season, key) in m.archive ==> m.archive[(season, key)].entries == m.live[key])
  {
    if (season, key) in m.archive {
      assert m'.archive[(season, key)] == m.archive[(season, key)];
    }
  }

  // Such a run: the job finishes, a score is written, and the job finishes again for the same
  // season. The second board is gone, and the archive still holds the first.
  ghost predicate DropsSecondBoard(season: string, key: string, ms: seq<Moment>)
    requires |ms| == 4
  {
    && ms[0] == Moment(map[key := [ArchiveEntry("u", 1.0)]], map[])
    && RunPost(ms[0].live, ms[0].archive, season, ms[1].live, ms[1].archive, Finished)
    && ms[2] == ms[1].(live := map[key := [ArchiveEntry("u", 2.0)]])
    && RunPost(ms[2].live, ms[2].archive, season, ms[3].live, ms[3].archive, Finished)
    && key !in ms[3].live
    && (season, key) in ms[3].archive && ms[3].archive[(season, key)].entries == [ArchiveEntry("u", 1.0)]
  }

  lemma SecondRunDropsBoard(season: string) returns (ms: seq<Moment>)
    ensures |ms| == 4 && DropsSecondBoard(season, BoardKey("global"), ms)
  {
    var key := BoardKey("global");
    ScopeOfBoard("global");
    assert Recognised(key);
    hide BoardKey, RunPost, ScopeType, Recognised, RowFor;
    var first := map[key := [ArchiveEntry("u", 1.0)]];
    var second := map[key := [ArchiveEntry("u", 2.0)]];
    var archive := map[(season, key) := RowFor(first, key)];
    ms := [Moment(first, map[]), Moment(map[], archive), Moment(second, archive), Moment(map[], archive)];
    OneBoardRun(season, key, [ArchiveEntry("u", 1.0)], map[]);
    assert map[][(season, key) := RowFor(first, key)] == archive;
    OneBoardRun(season, key, [ArchiveEntry("u", 2.0)], archive);
  }

  // A finished run with one board left: it is gone, and archived unless the season had it already.
  lemma OneBoardRun(season: string, key: string, board: ZSet, archive: Archive)
    requires Recognised(key)
    ensures
      var live := map[key := board];
      RunPost(live, archive, season, map[],
              if (season, key) in archive then archive else archive[(season, key) := RowFor(live, key)], Finished)
  {
    hide ScopeType;
    assert Unrecognised(map[key := board]) == map[];
  }
}
