/**
 * The Telegram bot's pure parts: reading a "<keyword> [count]" message,
 * clamping the count, the names of the per-keyword data files, and the
 * settings read from config.ini.
 */
module BotRequests {
  import opened Wrappers
  import opened Strings
  import opened PageExtractor
  import opened SeenStore
  import opened SunbizFetch

  /** The count used when a message gives none, and the per-request limit
      when the settings give none. */
  const DEFAULT_COUNT: int := 100

  /** The token a fresh config.ini holds until it is filled in. */
  const PLACEHOLDER_TOKEN: string := "YOUR_BOT_TOKEN"

  // ---------------------------------------------------------------------
  // Messages.

  /** What a text message asks for: nothing, the usage reply, or a job. */
  datatype Request = Ignored | Usage | Enqueue(keyword: string, count: int)

  /** `min(max(1, count), max_addresses)`. */
  function Clamp(count: int, maxAddresses: int): (c: int)
    ensures c <= maxAddresses
    ensures 1 <= maxAddresses ==> 1 <= c
    ensures 1 <= count <= maxAddresses ==> c == count
    ensures count < 1 <= maxAddresses ==> c == 1
    ensures maxAddresses < count ==> c == maxAddresses
  {
    Min(Max(1, count), maxAddresses)
  }

  /** `handle_message`: no text, or only whitespace, is ignored; the first
      token is the keyword; the second, if any, must be an integer, else
      the usage reply is sent; the count is then clamped. */
  function ParseRequest(text: Option<string>, maxAddresses: int): Request {
    if text.None? || text.value == "" then Ignored
    else
      var parts := Split(Strip(text.value));
      if parts == [] then Ignored
      else if |parts| > 1 then
        match ParseInt(parts[1])
        case None => Usage
        case Some(n) => Enqueue(parts[0], Clamp(n, maxAddresses))
      else Enqueue(parts[0], Clamp(DEFAULT_COUNT, maxAddresses))
  }

  /** A message is ignored exactly when it has no text or only whitespace. */
  lemma ParseIgnored(text: Option<string>, maxAddresses: int)
    ensures ParseRequest(text, maxAddresses) == Ignored <==> text.None? || Blank(text.value)
  {
    if text.Some? {
      SplitStrip(text.value);
    }
  }

  /** The message's tokens decide everything: the keyword is the first
      token, the count is the second parsed as an integer or 100 when
      there is none, and a second token that is not an integer gives the
      usage reply. */
  lemma ParseTokens(t: string, maxAddresses: int)
    ensures var parts := Split(t);
      var r := ParseRequest(Some(t), maxAddresses);
      && (parts == [] ==> r == Ignored)
      && (|parts| == 1 ==> r == Enqueue(parts[0], Clamp(DEFAULT_COUNT, maxAddresses)))
      && (|parts| >= 2 && ParseInt(parts[1]).None? ==> r == Usage)
      && (|parts| >= 2 && ParseInt(parts[1]).Some? ==>
            r == Enqueue(parts[0], Clamp(ParseInt(parts[1]).value, maxAddresses)))
  {
    SplitStrip(t);
  }

  /** Every job asked for has a keyword that is one whitespace-free token
      and a count between 1 and the limit. */
  lemma ParseEnqueueBounds(text: Option<string>, maxAddresses: int)
    requires 1 <= maxAddresses
    ensures var r := ParseRequest(text, maxAddresses);
      r.Enqueue? ==> IsWord(r.keyword) && 1 <= r.count <= maxAddresses
  {
  }

  /** Tokens after the second do not change the request. */
  lemma ParseIgnoresExtra(words: seq<string>, maxAddresses: int)
    requires |words| >= 2
    requires forall i :: 0 <= i < |words| ==> IsWord(words[i])
    ensures ParseRequest(Some(Join(" ", words)), maxAddresses)
         == ParseRequest(Some(Join(" ", words[..2])), maxAddresses)
  {
    var first := words[..2];
    SplitJoin(words);
    SplitJoin(first);
    ParseTokens(Join(" ", words), maxAddresses);
    ParseTokens(Join(" ", first), maxAddresses);
  }

  /** A keyword alone asks for 100 addresses, or the limit if it is lower. */
  lemma ParseDefaultCount(keyword: string, maxAddresses: int)
    requires IsWord(keyword)
    ensures ParseRequest(Some(keyword), maxAddresses) == Enqueue(keyword, Min(DEFAULT_COUNT, maxAddresses))
  {
    SplitJoin([keyword]);
    ParseTokens(keyword, maxAddresses);
  }

  /** The written count `n` is honoured when it is within the limit. */
  lemma ParseCount(keyword: string, n: nat, maxAddresses: int)
    requires IsWord(keyword) && 1 <= n <= maxAddresses
    ensures ParseRequest(Some(keyword + " " + NatToString(n)), maxAddresses) == Enqueue(keyword, n)
  {
    var words := [keyword, NatToString(n)];
    assert Join(" ", words) == keyword + " " + NatToString(n) by {
      assert words[1..] == [NatToString(n)];
    }
    SplitJoin(words);
    ParseNatToString(n);
    ParseTokens(Join(" ", words), maxAddresses);
  }

  /** `queue_worker`'s `min(count, max_addresses)` changes nothing for a
      count that went through `handle_message` with the same limit. */
  lemma WorkerCapIdempotent(count: int, maxAddresses: int)
    ensures Min(Clamp(count, maxAddresses), maxAddresses) == Clamp(count, maxAddresses)
  {
  }

  // ---------------------------------------------------------------------
  // Per-keyword files.

  /** `<keyword lowered, spaces removed>_seen.txt` in the data directory. */
  function SeenPathFor(dataDir: string, keyword: string): (p: FilePath)
    ensures p.dir == dataDir
    ensures |p.name| >= 9 && p.name[|p.name| - 9..] == "_seen.txt"
    ensures forall i :: 0 <= i < |p.name| ==> p.name[i] != ' '
  {
    FilePath(dataDir, TermClean(keyword) + "_seen.txt")
  }

  /** `sunbiz_data.json` in the data directory. */
  function OutputPathFor(dataDir: string): FilePath {
    FilePath(dataDir, "sunbiz_data.json")
  }

  /** Keywords that clean to the same name share a seen file, and only
      those. */
  lemma SeenPathShared(dataDir: string, k1: string, k2: string)
    ensures SeenPathFor(dataDir, k1) == SeenPathFor(dataDir, k2) <==> TermClean(k1) == TermClean(k2)
  {
    var n1, n2 := SeenPathFor(dataDir, k1).name, SeenPathFor(dataDir, k2).name;
    if n1 == n2 {
      assert TermClean(k1) == n1[..|n1| - 9];
      assert TermClean(k2) == n2[..|n2| - 9];
    }
  }

  /** The address list a fetch writes never lands on a seen file or on the
      JSON output: the character before ".txt" is a digit in the one and
      'n' in the other, and the JSON name does not end in ".txt". */
  lemma TxtPathApart(dataDir: string, term: string, count: nat, keyword: string)
    ensures FilePath(dataDir, TxtName(term, count)) != SeenPathFor(dataDir, keyword)
    ensures FilePath(dataDir, TxtName(term, count)) != OutputPathFor(dataDir)
  {
    var txt := TxtName(term, count);
    var digits := NatToString(count);
    assert txt == (TermClean(term) + digits) + ".txt";
    assert txt[|txt| - 5] == digits[|digits| - 1];
    assert txt[|txt| - 1] == 't';
    var seen := SeenPathFor(dataDir, keyword).name;
    assert seen[|seen| - 5] == 'n';
  }

  // ---------------------------------------------------------------------
  // Settings.

  /** A parsed config.ini: option values by section and option name. */
  type Ini = map<string, map<string, string>>

  /** What `get_config` returns. */
  datatype Config = Config(token: string, maxAddresses: int, dataDir: string)

  /** Why `get_config` raises. */
  datatype ConfigError = NoConfigFile | TokenNotSet | MaxAddressesNotInt

  /** `cfg.get(section, option, fallback=...)`. */
  function Get(ini: Ini, section: string, option: string, fallback: string): string {
    if section in ini && option in ini[section] then ini[section][option] else fallback
  }

  /** `Path(d)` made absolute against the bot's directory. */
  function Absolute(scriptDir: string, d: string): (p: string)
    ensures StartsWithSlash(d) ==> p == d
    ensures !StartsWithSlash(d) ==>
      |p| == |scriptDir| + 1 + |d| && p[..|scriptDir| + 1] == scriptDir + "/" && p[|scriptDir| + 1..] == d
    ensures StartsWithSlash(scriptDir) ==> StartsWithSlash(p)
  {
    if StartsWithSlash(d) then d else scriptDir + "/" + d
  }

  /** `get_config`: the file must exist; the stripped token must be set and
      not the placeholder; `max_addresses` is an integer, 100 when absent;
      `data_dir` defaults to "data/bot" and is taken relative to the bot's
      directory unless absolute. */
  function GetConfig(file: Option<Ini>, scriptDir: string): (r: Result<Config, ConfigError>)
    ensures file.None? ==> r == Err(NoConfigFile)
    ensures r.Ok? ==> r.value.token != "" && r.value.token != PLACEHOLDER_TOKEN && Strip(r.value.token) == r.value.token
  {
    if file.None? then Err(NoConfigFile)
    else
      var ini := file.value;
      var token := Strip(Get(ini, "telegram", "token", ""));
      StripIdempotent(Get(ini, "telegram", "token", ""));
      if token == "" || token == PLACEHOLDER_TOKEN then Err(TokenNotSet)
      else
        var maxAddresses: Option<int> :=
          if "telegram" in ini && "max_addresses" in ini["telegram"]
          then ParseInt(Strip(ini["telegram"]["max_addresses"]))
          else Some(DEFAULT_COUNT);
        if maxAddresses.None? then Err(MaxAddressesNotInt)
        else Ok(Config(token, maxAddresses.value, Absolute(scriptDir, Get(ini, "bot", "data_dir", "data/bot"))))
  }

  /** The token check: a present file is refused for its token exactly when
      the stripped token is empty or the placeholder. */
  lemma GetConfigToken(ini: Ini, scriptDir: string)
    ensures var raw := Strip(Get(ini, "telegram", "token", ""));
      GetConfig(Some(ini), scriptDir) == Err(TokenNotSet) <==> raw == "" || raw == PLACEHOLDER_TOKEN
  {
  }

  /** Settings left out of config.ini take their defaults: a limit of 100
      and the "data/bot" directory next to the bot. */
  lemma GetConfigDefaults(ini: Ini, scriptDir: string)
    requires "telegram" in ini && "token" in ini["telegram"]
    requires var t := Strip(ini["telegram"]["token"]); t != "" && t != PLACEHOLDER_TOKEN
    requires "max_addresses" !in ini["telegram"]
    requires "bot" !in ini || "data_dir" !in ini["bot"]
    ensures GetConfig(Some(ini), scriptDir)
         == Ok(Config(Strip(ini["telegram"]["token"]), DEFAULT_COUNT, scriptDir + "/data/bot"))
  {
    var raw := ini["telegram"]["token"];
    assert Get(ini, "telegram", "token", "") == raw;
    var dir := Get(ini, "bot", "data_dir", "data/bot");
    assert dir == "data/bot";
    assert !StartsWithSlash(dir) by { assert dir[0] == 'd'; }
    assert Absolute(scriptDir, dir) == scriptDir + "/data/bot";
    assert GetConfig(Some(ini), scriptDir) == Ok(Config(Strip(raw), DEFAULT_COUNT, Absolute(scriptDir, dir)));
  }
}
