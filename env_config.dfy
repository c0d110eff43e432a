/** The checks and derived settings of the environment configuration: the
    `pg_story_volumes` list of story databases, the scheduler's extra
    networks, and the consistency checks run after the fields are loaded. */
module Env {
  import opened Wrappers
  import opened Text

  // ---- the story volume pattern --------------------------------------------

  /** The characters that end a field of a volume: `:`, `@` and `/`. */
  predicate IsSep(c: char) {
    c == ':' || c == '@' || c == '/'
  }

  predicate SepFree(s: string) {
    forall i :: 0 <= i < |s| ==> !IsSep(s[i])
  }

  /** `[^:@/]+`. */
  predicate IsField(s: string) {
    s != [] && SepFree(s)
  }

  predicate IsAsciiDigit(c: char) {
    '0' <= c <= '9'
  }

  /** `\d+`, for ASCII digits. */
  predicate IsNumber(s: string) {
    s != [] && forall i :: 0 <= i < |s| ==> IsAsciiDigit(s[i])
  }

  /** A text cut at every separator: the runs between them, and the
      separators in order. */
  datatype Fields = Fields(pieces: seq<string>, seps: seq<char>)

  function Cut(s: string): (r: Fields)
    ensures |r.pieces| == |r.seps| + 1
    ensures forall i :: 0 <= i < |r.pieces| ==> SepFree(r.pieces[i])
    ensures forall i :: 0 <= i < |r.seps| ==> IsSep(r.seps[i])
  {
    if s == [] then Fields([""], [])
    else
      var f := Cut(s[1..]);
      if IsSep(s[0]) then Fields([""] + f.pieces, [s[0]] + f.seps)
      else Fields([[s[0]] + f.pieces[0]] + f.pieces[1..], f.seps)
  }

  /** The text back from its runs and separators. */
  function Assemble(pieces: seq<string>, seps: seq<char>): string
    requires |pieces| == |seps| + 1
    decreases |seps|
  {
    if seps == [] then pieces[0]
    else pieces[0] + [seps[0]] + Assemble(pieces[1..], seps[1..])
  }

  lemma {:induction false} AssembleCut(s: string)
    ensures Assemble(Cut(s).pieces, Cut(s).seps) == s
    decreases |s|
  {
    if s != [] {
      AssembleCut(s[1..]);
      var f := Cut(s[1..]);
      if !IsSep(s[0]) && f.seps != [] {
        assert [s[0]] + f.pieces[0] + [f.seps[0]] + Assemble(f.pieces[1..], f.seps[1..]) ==
          [s[0]] + (f.pieces[0] + [f.seps[0]] + Assemble(f.pieces[1..], f.seps[1..]));
        assert ([[s[0]] + f.pieces[0]] + f.pieces[1..])[1..] == f.pieces[1..];
      }
      if IsSep(s[0]) {
        assert ([""] + f.pieces)[1..] == f.pieces;
        assert [s[0]] + Assemble(f.pieces, f.seps) == s;
      }
    }
  }

  /** A separator-free run in front is absorbed into the first piece. */
  lemma {:induction false} CutPrefix(a: string, rest: string)
    requires SepFree(a)
    ensures Cut(a + rest) == Fields([a + Cut(rest).pieces[0]] + Cut(rest).pieces[1..], Cut(rest).seps)
    decreases |a|
  {
    if a != [] {
      assert (a + rest)[0] == a[0];
      assert (a + rest)[1..] == a[1..] + rest;
      CutPrefix(a[1..], rest);
      assert [a[0]] + (a[1..] + Cut(rest).pieces[0]) == a + Cut(rest).pieces[0];
    } else {
      assert a + rest == rest;
      var f := Cut(rest);
      assert a + f.pieces[0] == f.pieces[0];
      assert [f.pieces[0]] + f.pieces[1..] == f.pieces;
    }
  }

  lemma {:induction false} CutAssemble(pieces: seq<string>, seps: seq<char>)
    requires |pieces| == |seps| + 1
    requires forall i :: 0 <= i < |pieces| ==> SepFree(pieces[i])
    requires forall i :: 0 <= i < |seps| ==> IsSep(seps[i])
    ensures Cut(Assemble(pieces, seps)) == Fields(pieces, seps)
    decreases |seps|
  {
    if seps == [] {
      CutPrefix(pieces[0], "");
      assert pieces[0] + "" == pieces[0];
      assert [pieces[0]] == pieces;
    } else {
      assert forall i :: 0 <= i < |pieces[1..]| ==> pieces[1..][i] == pieces[i + 1];
      assert forall i :: 0 <= i < |seps[1..]| ==> seps[1..][i] == seps[i + 1];
      CutAssemble(pieces[1..], seps[1..]);
      CutAssembleStep(pieces, seps);
    }
  }

  /** One run and one separator in front of text that cuts back into the
      remaining runs and separators. */
  lemma {:induction false} CutAssembleStep(pieces: seq<string>, seps: seq<char>)
    requires |pieces| == |seps| + 1 && seps != []
    requires SepFree(pieces[0]) && IsSep(seps[0])
    requires Cut(Assemble(pieces[1..], seps[1..])) == Fields(pieces[1..], seps[1..])
    ensures Cut(Assemble(pieces, seps)) == Fields(pieces, seps)
  {
    var tail := Assemble(pieces[1..], seps[1..]);
    assert pieces[0] + [seps[0]] + tail == pieces[0] + ([seps[0]] + tail);
    CutPrefix(pieces[0], [seps[0]] + tail);
    assert ([seps[0]] + tail)[1..] == tail;
    assert Cut([seps[0]] + tail) == Fields([""] + pieces[1..], [seps[0]] + seps[1..]);
    assert pieces[0] + "" == pieces[0];
    assert [pieces[0]] + pieces[1..] == pieces;
    assert [seps[0]] + seps[1..] == seps;
  }

  /** The value of a run of ASCII digits, as `int()` reads it. */
  function DecimalValue(s: string): nat
    decreases |s|
  {
    if s == [] then 0
    else
      var c := s[|s| - 1];
      10 * DecimalValue(s[..|s| - 1]) + (if IsAsciiDigit(c) then c as int - '0' as int else 0)
  }

  /** The separators of `{volume}:{user}:{password}@{host}:{port}/{db}/{table}`. */
  const VolumeSeps: seq<char> := [':', ':', '@', ':', '/', '/']

  datatype VolumeSpec = VolumeSpec(user: string, password: string, host: string, port: int, db: string, table: string)

  /** The seven groups of the volume pattern in a part, with the volume and
      the port read as numbers; None where the pattern does not match. */
  function MatchVolume(part: string): Option<(nat, VolumeSpec)> {
    var f := Cut(part);
    if f.seps == VolumeSeps && (forall i :: 0 <= i < 7 ==> f.pieces[i] != []) &&
      IsNumber(f.pieces[0]) && IsNumber(f.pieces[4])
    then
      var p := f.pieces;
      Some((DecimalValue(p[0]), VolumeSpec(p[1], p[2], p[3], DecimalValue(p[4]), p[5], p[6])))
    else None
  }

  /** The text of a volume from its seven groups. */
  function VolumeText(volume: string, user: string, password: string, host: string, port: string, db: string, table: string): string {
    Assemble([volume, user, password, host, port, db, table], VolumeSeps)
  }

  datatype ConfigError =
    | InvalidStoryVolume(part: string)
    | InvalidExtraNetworks
    | RejectedNetworks
    | SentryDsnRequired
    | SmtpHostRequired
    | SmtpPortRequired

  /** The loop of `_parse_story_volumes` over a prefix of the parts: the
      first part that does not match stops it; a later part for the same
      volume number replaces an earlier one. */
  function CollectVolumes(parts: seq<string>): Result<map<nat, VolumeSpec>, ConfigError>
    decreases |parts|
  {
    if parts == [] then Ok(map[])
    else
      match CollectVolumes(parts[..|parts| - 1])
      case Err(e) => Err(e)
      case Ok(m) =>
        var last := parts[|parts| - 1];
        match MatchVolume(last)
        case None => Err(InvalidStoryVolume(last))
        case Some((v, spec)) => Ok(m[v := spec])
  }

  function StoryVolumes(text: string): Result<map<nat, VolumeSpec>, ConfigError> {
    CollectVolumes(Split(text, ','))
  }

  /** `EnvConfig._parse_story_volumes(text)`. */
  method ParseStoryVolumes(text: string) returns (r: Result<map<nat, VolumeSpec>, ConfigError>)
    ensures r == StoryVolumes(text)
  {
    var parts := Split(text, ',');
    var volumes: map<nat, VolumeSpec> := map[];
    var i := 0;
    while i < |parts|
      invariant 0 <= i <= |parts|
      invariant CollectVolumes(parts[..i]) == Ok(volumes)
    {
      assert parts[..i + 1][..i] == parts[..i];
      var m := MatchVolume(parts[i]);
      if m.None? {
        CollectVolumesStops(parts, i + 1);
        return Err(InvalidStoryVolume(parts[i]));
      }
      var (volume, spec) := m.value;
      volumes := volumes[volume := spec];
      i := i + 1;
    }
    assert parts[..i] == parts;
    return Ok(volumes);
  }

  lemma {:induction false} CollectVolumesStops(parts: seq<string>, n: nat)
    requires n <= |parts| && CollectVolumes(parts[..n]).Err?
    ensures CollectVolumes(parts) == CollectVolumes(parts[..n])
    decreases |parts| - n
  {
    if n < |parts| {
      assert parts[..n + 1][..n] == parts[..n];
      CollectVolumesStops(parts, n + 1);
    } else {
      assert parts[..n] == parts;
    }
  }

  // ---- what the pattern accepts --------------------------------------------

  /** A part made of the seven groups, each of its character class, matches
      with exactly those groups. */
  lemma {:induction false} MatchVolumeText(volume: string, user: string, password: string, host: string, port: string, db: string, table: string)
    requires IsNumber(volume) && IsField(user) && IsField(password) && IsField(host)
    requires IsNumber(port) && IsField(db) && IsField(table)
    ensures MatchVolume(VolumeText(volume, user, password, host, port, db, table)) ==
      Some((DecimalValue(volume), VolumeSpec(user, password, host, DecimalValue(port), db, table)))
  {
    var pieces := [volume, user, password, host, port, db, table];
    NumberSepFree(volume);
    NumberSepFree(port);
    CutAssemble(pieces, VolumeSeps);
  }

  lemma {:induction false} NumberSepFree(s: string)
    requires IsNumber(s)
    ensures IsField(s)
  {
  }

  /** Every matching part is the seven groups it was read from, each of its
      character class. */
  lemma {:induction false} MatchVolumeShape(part: string)
    requires MatchVolume(part).Some?
    ensures var p := Cut(part).pieces;
      |p| == 7 && part == VolumeText(p[0], p[1], p[2], p[3], p[4], p[5], p[6]) &&
      IsNumber(p[0]) && IsField(p[1]) && IsField(p[2]) && IsField(p[3]) &&
      IsNumber(p[4]) && IsField(p[5]) && IsField(p[6])
  {
    AssembleCut(part);
    var p := Cut(part).pieces;
    assert [p[0], p[1], p[2], p[3], p[4], p[5], p[6]] == p;
  }

  /** `int(group)` agrees with the value the volume and port are read as. */
  lemma {:induction false} DecimalValueIsInt(s: string)
    requires IsNumber(s)
    ensures ParseInt(s, 10) == Some(DecimalValue(s) as int)
  {
    StripNoOp(s);
    NoUnderscores(s);
    DecimalDigits(s);
  }

  lemma {:induction false} NoUnderscores(s: string)
    requires IsNumber(s)
    ensures UnderscoresBetweenDigits(s) && RemoveUnderscores(s) == s
  {
    assert forall i :: 0 <= i < |s| ==> s[i] != '_';
    assert forall i :: 0 <= i < |s| - 1 ==> !DoubleUnderscoreAt(s, i) by {
      forall i | 0 <= i < |s| - 1 ensures !DoubleUnderscoreAt(s, i) {
        assert IsAsciiDigit(s[i]);
      }
    }
  }

  lemma {:induction false} DecimalDigits(s: string)
    requires IsNumber(s)
    ensures ParseDigits(s, 10) == Some(DecimalValue(s))
    decreases |s|
  {
    var c := s[|s| - 1];
    assert IsAsciiDigit(c);
    if |s| > 1 {
      var init := s[..|s| - 1];
      assert forall i :: 0 <= i < |init| ==> init[i] == s[i];
      DecimalDigits(init);
    } else {
      assert s[..0] == [];
    }
  }

  // ---- what the volume list holds -------------------------------------------

  /** The list parses exactly when every comma-separated part matches. */
  lemma {:induction false} CollectVolumesOk(parts: seq<string>)
    ensures CollectVolumes(parts).Ok? <==> forall i :: 0 <= i < |parts| ==> MatchVolume(parts[i]).Some?
    decreases |parts|
  {
    if parts != [] {
      var init := parts[..|parts| - 1];
      CollectVolumesOk(init);
      assert forall i :: 0 <= i < |init| ==> init[i] == parts[i];
    }
  }

  predicate NamesVolume(part: string, v: nat) {
    MatchVolume(part).Some? && MatchVolume(part).value.0 == v
  }

  /** Part `i` is the last one naming volume `v`. */
  predicate LastFor(parts: seq<string>, i: int, v: nat) {
    0 <= i < |parts| && NamesVolume(parts[i], v) &&
    forall j :: i < j < |parts| ==> !NamesVolume(parts[j], v)
  }

  /** A parsed list holds exactly the volume numbers named, each with the
      settings of the last part naming it. */
  lemma {:induction false} CollectVolumesLast(parts: seq<string>, v: nat)
    requires CollectVolumes(parts).Ok?
    ensures v in CollectVolumes(parts).value <==> exists i :: LastFor(parts, i, v)
    ensures forall i :: LastFor(parts, i, v) ==> CollectVolumes(parts).value[v] == MatchVolume(parts[i]).value.1
    decreases |parts|
  {
    if parts != [] {
      var init := parts[..|parts| - 1];
      var n := |parts| - 1;
      CollectVolumesLast(init, v);
      assert init == parts[..|parts| - 1];
      var m := CollectVolumes(init).value;
      var last := MatchVolume(parts[n]).value;
      assert CollectVolumes(parts).value == m[last.0 := last.1];
      if NamesVolume(parts[n], v) {
        LastIsLast(parts, v);
      } else {
        LastOfInit(parts, v);
        if exists i :: LastFor(parts, i, v) {
          var i :| LastFor(parts, i, v);
          assert LastFor(init, i, v);
        }
        if exists i :: LastFor(init, i, v) {
          var i :| LastFor(init, i, v);
          assert LastFor(parts, i, v);
        }
      }
    }
  }

  lemma {:induction false} LastIsLast(parts: seq<string>, v: nat)
    requires parts != [] && NamesVolume(parts[|parts| - 1], v)
    ensures LastFor(parts, |parts| - 1, v)
    ensures forall i :: LastFor(parts, i, v) ==> i == |parts| - 1
  {
  }

  lemma {:induction false} LastOfInit(parts: seq<string>, v: nat)
    requires parts != [] && !NamesVolume(parts[|parts| - 1], v)
    ensures forall i :: LastFor(parts, i, v) <==> LastFor(parts[..|parts| - 1], i, v)
  {
    var init := parts[..|parts| - 1];
    assert forall j :: 0 <= j < |init| ==> init[j] == parts[j];
  }

  /** Two parts for the same volume number: the later one wins. */
  lemma {:induction false} LaterDuplicateWins(first: string, second: string)
    requires MatchVolume(first).Some? && MatchVolume(second).Some?
    requires MatchVolume(first).value.0 == MatchVolume(second).value.0
    ensures CollectVolumes([first, second]) ==
      Ok(map[MatchVolume(second).value.0 := MatchVolume(second).value.1])
  {
    var parts := [first, second];
    assert parts[..1] == [first];
    assert parts[..1][..0] == [];
    var v := MatchVolume(first).value.0;
    assert CollectVolumes(parts[..1]) == Ok(map[v := MatchVolume(first).value.1]);
    assert map[v := MatchVolume(first).value.1][v := MatchVolume(second).value.1] ==
      map[v := MatchVolume(second).value.1];
  }

  /** The documented example: one part, volume 0, port 5432 as a number. */
  lemma {:induction false} StoryVolumesDoctest()
    ensures StoryVolumes(VolumeText("0", "user", "password", "host", "5432", "db", "table")) ==
      Ok(map[0 := VolumeSpec("user", "password", "host", 5432, "db", "table")])
  {
    var text := VolumeText("0", "user", "password", "host", "5432", "db", "table");
    DoctestGroups();
    DoctestNumbers();
    MatchVolumeText("0", "user", "password", "host", "5432", "db", "table");
    DoctestNoComma();
    SplitWithoutSep(text, ',');
    assert [text][..0] == [];
  }

  lemma {:induction false} DoctestGroups()
    ensures IsNumber("0") && IsNumber("5432")
    ensures IsField("user") && IsField("password") && IsField("host")
    ensures IsField("db") && IsField("table")
  {
  }

  lemma {:induction false} DoctestNumbers()
    ensures DecimalValue("0") == 0 && DecimalValue("5432") == 5432
  {
    assert "5432"[..3] == "543" && "543"[..2] == "54" && "54"[..1] == "5" && "5"[..0] == [];
  }

  lemma {:induction false} DoctestNoComma()
    ensures ',' !in VolumeText("0", "user", "password", "host", "5432", "db", "table")
  {
    NoCommaText("0", "user", "password", "host", "5432", "db", "table");
  }

  lemma {:induction false} NoCommaText(volume: string, user: string, password: string, host: string, port: string, db: string, table: string)
    requires ',' !in volume && ',' !in user && ',' !in password && ',' !in host
    requires ',' !in port && ',' !in db && ',' !in table
    ensures ',' !in VolumeText(volume, user, password, host, port, db, table)
  {
    NoCommaAssemble([volume, user, password, host, port, db, table], VolumeSeps);
  }

  lemma {:induction false} NoCommaAssemble(pieces: seq<string>, seps: seq<char>)
    requires |pieces| == |seps| + 1
    requires forall i :: 0 <= i < |pieces| ==> ',' !in pieces[i]
    requires ',' !in seps
    ensures ',' !in Assemble(pieces, seps)
    decreases |seps|
  {
    if seps != [] {
      assert forall i :: 0 <= i < |pieces[1..]| ==> pieces[1..][i] == pieces[i + 1];
      assert seps[0] in seps;
      NoCommaAssemble(pieces[1..], seps[1..]);
    }
  }

  // ---- scheduler extra networks ----------------------------------------------

  /** A node network: a name and, for the current node, no url. */
  datatype Network = Network(name: string, url: Option<string>)

  /** The loop of `_parse_scheduler_extra_networks` over a prefix of the
      parts: each must split on its first `@` into a name and a url. */
  function NetworksOf(parts: seq<string>): Result<seq<Network>, ConfigError>
    decreases |parts|
  {
    if parts == [] then Ok([])
    else
      match NetworksOf(parts[..|parts| - 1])
      case Err(e) => Err(e)
      case Ok(nets) =>
        match SplitOnce(parts[|parts| - 1], '@')
        case None => Err(InvalidExtraNetworks)
        case Some((name, url)) => Ok(nets + [Network(name, Some(url))])
  }

  /** `_parse_scheduler_extra_networks`, with the schema check of the list
      (a name and a relaxed url per entry) given as `accepts`. */
  function ExtraNetworks(text: Option<string>, accepts: seq<Network> -> bool): Result<seq<Network>, ConfigError> {
    if text.None? || text.value == "" then Ok([])
    else
      match NetworksOf(Split(Strip(text.value), ','))
      case Err(e) => Err(e)
      case Ok(nets) => if accepts(nets) then Ok(nets) else Err(RejectedNetworks)
  }

  /** The loop itself, appending one network per part. */
  method ParseExtraNetworks(text: Option<string>, accepts: seq<Network> -> bool) returns (r: Result<seq<Network>, ConfigError>)
    ensures r == ExtraNetworks(text, accepts)
  {
    if text.None? || text.value == "" {
      return Ok([]);
    }
    var parts := Split(Strip(text.value), ',');
    var networks: seq<Network> := [];
    var i := 0;
    while i < |parts|
      invariant 0 <= i <= |parts|
      invariant NetworksOf(parts[..i]) == Ok(networks)
    {
      assert parts[..i + 1][..i] == parts[..i];
      var split := SplitOnce(parts[i], '@');
      if split.None? {
        NetworksStop(parts, i + 1);
        return Err(InvalidExtraNetworks);
      }
      var (name, url) := split.value;
      networks := networks + [Network(name, Some(url))];
      i := i + 1;
    }
    assert parts[..i] == parts;
    if !accepts(networks) {
      return Err(RejectedNetworks);
    }
    return Ok(networks);
  }

  lemma {:induction false} NetworksStop(parts: seq<string>, n: nat)
    requires n <= |parts| && NetworksOf(parts[..n]).Err?
    ensures NetworksOf(parts) == NetworksOf(parts[..n])
    decreases |parts| - n
  {
    if n < |parts| {
      assert parts[..n + 1][..n] == parts[..n];
      NetworksStop(parts, n + 1);
    } else {
      assert parts[..n] == parts;
    }
  }

  /** The parts split exactly when each holds an `@`; then network `i` is
      part `i` cut at its first `@`, so the name holds no `@`. */
  lemma {:induction false} NetworksOfParts(parts: seq<string>)
    ensures NetworksOf(parts).Ok? <==> forall i :: 0 <= i < |parts| ==> '@' in parts[i]
    ensures NetworksOf(parts).Ok? ==> (|NetworksOf(parts).value| == |parts| &&
      forall i :: 0 <= i < |parts| ==>
        var n := NetworksOf(parts).value[i];
        n.url.Some? && '@' !in n.name && parts[i] == n.name + ['@'] + n.url.value)
    decreases |parts|
  {
    if parts != [] {
      var init := parts[..|parts| - 1];
      NetworksOfParts(init);
      assert forall i :: 0 <= i < |init| ==> init[i] == parts[i];
    }
  }

  // ---- __post_init__ ----------------------------------------------------------

  /** The loaded fields `__post_init__` reads. */
  datatype Settings = Settings(
    sentryEnable: bool, sentryDsn: Option<string>,
    smtpEnable: bool, smtpHost: Option<string>, smtpPort: Option<int>,
    schedulerNetwork: string, schedulerUrl: string, schedulerExtraNetworks: Option<string>,
    pgStoryVolumes: Option<string>,
    pgHost: string, pgPort: int, pgDb: string, pgUser: string, pgPassword: string)

  /** Python truthiness of an optional text and an optional number. */
  predicate Given(s: Option<string>) {
    s.Some? && s.value != ""
  }

  predicate GivenNumber(n: Option<int>) {
    n.Some? && n.value != 0
  }

  /** The first failing check, if any. */
  function FieldCheck(s: Settings): (r: Option<ConfigError>)
    ensures r == Some(SentryDsnRequired) <==> s.sentryEnable && !Given(s.sentryDsn)
    ensures r.None? <==>
      (s.sentryEnable ==> Given(s.sentryDsn)) && (s.smtpEnable ==> Given(s.smtpHost) && GivenNumber(s.smtpPort))
  {
    if s.sentryEnable && !Given(s.sentryDsn) then Some(SentryDsnRequired)
    else if s.smtpEnable && !Given(s.smtpHost) then Some(SmtpHostRequired)
    else if s.smtpEnable && !GivenNumber(s.smtpPort) then Some(SmtpPortRequired)
    else None
  }

  /** The single volume 0 built from the `pg_*` fields. */
  function DefaultVolumes(s: Settings): map<nat, VolumeSpec> {
    map[0 := VolumeSpec(s.pgUser, s.pgPassword, s.pgHost, s.pgPort, s.pgDb, "story_volume_0")]
  }

  function VolumesOf(s: Settings): Result<map<nat, VolumeSpec>, ConfigError> {
    if Given(s.pgStoryVolumes) then StoryVolumes(s.pgStoryVolumes.value) else Ok(DefaultVolumes(s))
  }

  class EnvConfig {
    const settings: Settings
    /** The networks of `registery_node_spec` and of `current_node_spec`. */
    var registryNetworks: seq<Network>
    var currentNetworks: seq<Network>
    var storyVolumes: map<nat, VolumeSpec>

    constructor (loaded: Settings)
      ensures settings == loaded
      ensures registryNetworks == [] && currentNetworks == [] && storyVolumes == map[]
    {
      settings := loaded;
      registryNetworks := [];
      currentNetworks := [];
      storyVolumes := map[];
    }

    /** `__post_init__`: the field checks, then the node specs, then the
        story volumes; a failure leaves the later fields as they were. */
    method PostInit(accepts: seq<Network> -> bool) returns (r: Result<(), ConfigError>)
      modifies this
      ensures FieldCheck(settings).Some? ==> r == Err(FieldCheck(settings).value) && unchanged(this)
      ensures FieldCheck(settings).None? && ExtraNetworks(settings.schedulerExtraNetworks, accepts).Err? ==>
        r == Err(ExtraNetworks(settings.schedulerExtraNetworks, accepts).error) && unchanged(this)
      ensures FieldCheck(settings).None? && ExtraNetworks(settings.schedulerExtraNetworks, accepts).Ok? ==>
        registryNetworks == [Network(settings.schedulerNetwork, Some(settings.schedulerUrl))] +
          ExtraNetworks(settings.schedulerExtraNetworks, accepts).value &&
        currentNetworks == [Network(settings.schedulerNetwork, None)] &&
        (VolumesOf(settings).Err? ==> r == Err(VolumesOf(settings).error) && storyVolumes == old(storyVolumes)) &&
        (VolumesOf(settings).Ok? ==> r == Ok(()) && storyVolumes == VolumesOf(settings).value)
    {
      var failed := FieldCheck(settings);
      if failed.Some? {
        return Err(failed.value);
      }
      var extra := ParseExtraNetworks(settings.schedulerExtraNetworks, accepts);
      if extra.Err? {
        return Err(extra.error);
      }
      registryNetworks := [Network(settings.schedulerNetwork, Some(settings.schedulerUrl))] + extra.value;
      currentNetworks := [Network(settings.schedulerNetwork, None)];
      var volumes;
      if Given(settings.pgStoryVolumes) {
        volumes := ParseStoryVolumes(settings.pgStoryVolumes.value);
      } else {
        volumes := Ok(DefaultVolumes(settings));
      }
      if volumes.Err? {
        return Err(volumes.error);
      }
      storyVolumes := volumes.value;
      return Ok(());
    }
  }

  /** The three checks, in order: sentry, then the smtp host, then the smtp
      port (a port of 0 counts as missing). */
  lemma {:induction false} FieldCheckOrder(s: Settings)
    ensures FieldCheck(s) == Some(SmtpHostRequired) <==>
      (s.sentryEnable ==> Given(s.sentryDsn)) && s.smtpEnable && !Given(s.smtpHost)
    ensures FieldCheck(s) == Some(SmtpPortRequired) <==>
      (s.sentryEnable ==> Given(s.sentryDsn)) && s.smtpEnable && Given(s.smtpHost) && !GivenNumber(s.smtpPort)
  {
  }

  /** Without `pg_story_volumes` there is exactly one volume, number 0, on
      the main database with table `story_volume_0`. */
  lemma {:induction false} DefaultVolumeOnly(s: Settings)
    requires !Given(s.pgStoryVolumes)
    ensures VolumesOf(s).Ok? && VolumesOf(s).value.Keys == {0}
    ensures VolumesOf(s).value[0].table == "story_volume_0"
    ensures VolumesOf(s).value[0].host == s.pgHost && VolumesOf(s).value[0].port == s.pgPort
  {
  }
}
