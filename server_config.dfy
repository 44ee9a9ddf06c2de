/**
 * The DICOMweb server list (`src/config/dicom-web.ts`): a comma-separated list of entries,
 * each `name=url` or a bare URL named by its host, loaded once into a table keyed by name,
 * with the first entry also stored as `default`.
 */
module ServerConfig {
  import opened Wrappers
  import Js

  /**
   * What the viewer reads of a parsed URL. `new URL(text)` is a parameter of the model,
   * a function that gives `None` where the constructor throws.
   */
  datatype Url = Url(host: string, origin: string)

  type UrlParser = string -> Option<Url>

  /** `DicomServer`: the display name, the base URL and the entry it was read from. */
  datatype Server = Server(name: string, url: string, raw: string)

  /** Loading throws: on a URL the parser refuses, or on a name already in the table. */
  datatype ConfigError = InvalidUrl(text: string) | DuplicateName(name: string)

  type Servers = map<string, Server>

  /** An entry without `=` is a single piece: the entry itself. */
  lemma SplitSingle(raw: string)
    requires |Js.Split(raw, "=")| == 1
    ensures Js.Split(raw, "=")[0] == raw
  {
  }

  /**
   * `[name, url]` of an entry: its first two `=`-separated pieces, or, for an entry without
   * `=`, the host of the entry read as a URL and the entry itself.
   */
  function NameAndUrl(raw: string, parse: UrlParser): (r: Result<(string, string), ConfigError>)
    ensures r.Failure? <==> |Js.Split(raw, "=")| == 1 && parse(raw).None?
    ensures |Js.Split(raw, "=")| == 1 && parse(raw).Some? ==> r == Success((parse(raw).value.host, raw))
    ensures |Js.Split(raw, "=")| > 1 ==> r == Success((Js.Split(raw, "=")[0], Js.Split(raw, "=")[1]))
  {
    var parts := Js.Split(raw, "=");
    if |parts| > 1 then Success((parts[0], parts[1]))
    else
      SplitSingle(raw);
      match parse(parts[0])
      case None => Failure(InvalidUrl(parts[0]))
      case Some(u) => Success((u.host, parts[0]))
  }

  /** `name || new URL(url).origin`: the key an entry is stored under. */
  function KeyOf(name: string, url: string, parse: UrlParser): (r: Result<string, ConfigError>)
    ensures name != "" ==> r == Success(name)
    ensures name == "" ==> (r.Success? <==> parse(url).Some?)
    ensures name == "" && parse(url).Some? ==> r == Success(parse(url).value.origin)
  {
    if name != "" then Success(name)
    else match parse(url)
      case None => Failure(InvalidUrl(url))
      case Some(u) => Success(u.origin)
  }

  /** One iteration of the loop over the entries. */
  function Step(servers: Servers, raw: string, parse: UrlParser): (r: Result<Servers, ConfigError>)
  {
    match NameAndUrl(raw, parse)
    case Failure(e) => Failure(e)
    case Success((name, url)) =>
      if name in servers then Failure(DuplicateName(name))
      else
        var server := Server(name, url, raw);
        var withDefault := if "default" in servers then servers else servers["default" := server];
        match KeyOf(name, url, parse)
        case Failure(e) => Failure(e)
        case Success(key) => Success(withDefault[key := server])
  }

  /** A step that succeeds keeps every key, adds the entry's key, and adds `default` if missing. */
  lemma StepKeys(servers: Servers, raw: string, parse: UrlParser)
    requires Step(servers, raw, parse).Success?
    ensures NameAndUrl(raw, parse).Success?
    ensures var (name, url) := NameAndUrl(raw, parse).value;
      name !in servers && KeyOf(name, url, parse).Success?
      && Step(servers, raw, parse).value.Keys == servers.Keys + {"default", KeyOf(name, url, parse).value}
      && Step(servers, raw, parse).value[KeyOf(name, url, parse).value] == Server(name, url, raw)
    ensures "default" in servers ==>
      (KeyOf(NameAndUrl(raw, parse).value.0, NameAndUrl(raw, parse).value.1, parse).value == "default"
       || Step(servers, raw, parse).value["default"] == servers["default"])
  {
  }

  /** The loop from a table over the remaining entries. */
  function Load(entries: seq<string>, servers: Servers, parse: UrlParser): Result<Servers, ConfigError>
    decreases |entries|
  {
    if entries == [] then Success(servers)
    else match Step(servers, entries[0], parse)
      case Failure(e) => Failure(e)
      case Success(next) => Load(entries[1..], next, parse)
  }

  /** `process.env.NEXT_PUBLIC_DICOMWEB_SERVERS || ''`, split on commas. */
  function Entries(env: Option<string>): (r: seq<string>)
    ensures |r| >= 1
  {
    Js.Split(if env.Some? then env.value else "", ",")
  }

  /** The module's initialiser: the table, or the error it throws. */
  method LoadServers(env: Option<string>, parse: UrlParser) returns (r: Result<Servers, ConfigError>)
    ensures r == Load(Entries(env), map[], parse)
  {
    var entries := Entries(env);
    var servers: Servers := map[];
    for i := 0 to |entries|
      invariant Load(entries, map[], parse) == Load(entries[i..], servers, parse)
    {
      assert entries[i..][1..] == entries[i + 1..];
      match Step(servers, entries[i], parse) {
        case Failure(e) =>
          return Failure(e);
        case Success(next) =>
          servers := next;
      }
    }
    return Success(servers);
  }

  // ---------------------------------------------------------------- properties

  /** A successful load keeps every key of the table it starts from. */
  lemma {:induction false} LoadKeepsKeys(entries: seq<string>, servers: Servers, parse: UrlParser)
    requires Load(entries, servers, parse).Success?
    ensures servers.Keys <= Load(entries, servers, parse).value.Keys
    decreases |entries|
  {
    if entries != [] {
      StepKeys(servers, entries[0], parse);
      LoadKeepsKeys(entries[1..], Step(servers, entries[0], parse).value, parse);
    }
  }

  /** The name of an entry, when it has one. */
  function NameOf(raw: string, parse: UrlParser): Option<string> {
    match NameAndUrl(raw, parse)
    case Success((name, _)) => Some(name)
    case Failure(_) => None
  }

  /** Two entries with the same non-empty name make the load throw. */
  lemma {:induction false} DuplicateNameFails(entries: seq<string>, servers: Servers, parse: UrlParser, i: nat, j: nat)
    requires i < j < |entries|
    requires NameOf(entries[i], parse) == NameOf(entries[j], parse) != Some("")
    requires NameOf(entries[i], parse).Some?
    ensures Load(entries, servers, parse).Failure?
    decreases |entries|
  {
    if Step(servers, entries[0], parse).Success? {
      var next := Step(servers, entries[0], parse).value;
      StepKeys(servers, entries[0], parse);
      if i == 0 {
        var name := NameOf(entries[0], parse).value;
        assert name in next;
        if Load(entries[1..], next, parse).Success? {
          LoadBlocksName(entries[1..], next, parse, j - 1, name);
        }
      } else {
        assert entries[1..][i - 1] == entries[i] && entries[1..][j - 1] == entries[j];
        DuplicateNameFails(entries[1..], next, parse, i - 1, j - 1);
      }
    }
  }

  /** A name already a key makes any later entry with that name throw. */
  lemma {:induction false} LoadBlocksName(entries: seq<string>, servers: Servers, parse: UrlParser, j: nat, name: string)
    requires j < |entries| && name in servers && NameOf(entries[j], parse) == Some(name)
    ensures Load(entries, servers, parse).Failure?
    decreases |entries|
  {
    if Step(servers, entries[0], parse).Success? {
      StepKeys(servers, entries[0], parse);
      var next := Step(servers, entries[0], parse).value;
      assert j > 0;
      assert entries[1..][j - 1] == entries[j];
      LoadBlocksName(entries[1..], next, parse, j - 1, name);
    }
  }

  /** A URL origin is never the word `default`: it contains a scheme, or is `null`. */
  ghost predicate OriginsNotDefault(parse: UrlParser) {
    forall text :: parse(text).Some? ==> parse(text).value.origin != "default"
  }

  /** Once `default` is set, later entries leave it alone. */
  lemma {:induction false} LoadKeepsDefault(entries: seq<string>, servers: Servers, parse: UrlParser)
    requires OriginsNotDefault(parse)
    requires "default" in servers && Load(entries, servers, parse).Success?
    ensures "default" in Load(entries, servers, parse).value
    ensures Load(entries, servers, parse).value["default"] == servers["default"]
    decreases |entries|
  {
    LoadKeepsKeys(entries, servers, parse);
    if entries != [] {
      StepKeys(servers, entries[0], parse);
      var next := Step(servers, entries[0], parse).value;
      LoadKeepsDefault(entries[1..], next, parse);
    }
  }

  /**
   * The first entry is the default server: after a successful load, `default` holds the
   * first entry's name, URL and text.
   */
  lemma DefaultIsFirst(env: Option<string>, parse: UrlParser)
    requires OriginsNotDefault(parse)
    requires Load(Entries(env), map[], parse).Success?
    ensures "default" in Load(Entries(env), map[], parse).value
    ensures var raw := Entries(env)[0];
      var (name, url) := NameAndUrl(raw, parse).value;
      Load(Entries(env), map[], parse).value["default"] == Server(name, url, raw)
  {
    var entries := Entries(env);
    StepKeys(map[], entries[0], parse);
    var next := Step(map[], entries[0], parse).value;
    LoadKeepsDefault(entries[1..], next, parse);
  }

  /** Every entry's key is in the loaded table. */
  lemma {:induction false} EveryEntryStored(entries: seq<string>, servers: Servers, parse: UrlParser, i: nat)
    requires i < |entries| && Load(entries, servers, parse).Success?
    ensures NameAndUrl(entries[i], parse).Success?
    ensures var (name, url) := NameAndUrl(entries[i], parse).value;
      KeyOf(name, url, parse).Success? && KeyOf(name, url, parse).value in Load(entries, servers, parse).value
    decreases |entries|
  {
    StepKeys(servers, entries[0], parse);
    var next := Step(servers, entries[0], parse).value;
    if i == 0 {
      LoadKeepsKeys(entries[1..], next, parse);
    } else {
      assert entries[1..][i - 1] == entries[i];
      EveryEntryStored(entries[1..], next, parse, i - 1);
    }
  }

  /** An unset or empty setting is one empty entry, which is no URL: loading throws. */
  lemma EmptySettingFails(parse: UrlParser)
    requires parse("").None?
    ensures Load(Entries(None), map[], parse) == Failure(InvalidUrl(""))
    ensures Load(Entries(Some("")), map[], parse) == Failure(InvalidUrl(""))
  {
    assert Entries(None) == [""];
    assert Js.Split("", "=") == [""];
  }

  /** `name=url` with neither part holding `=` names the server `name` at `url`. */
  lemma NamedEntry(name: string, url: string, parse: UrlParser)
    requires forall k :: 0 <= k < |name| ==> name[k] != '='
    requires forall k :: 0 <= k < |url| ==> url[k] != '='
    ensures NameAndUrl(name + "=" + url, parse) == Success((name, url))
  {
    var raw := name + "=" + url;
    forall j | 0 <= j < |name| ensures !Js.OccursAt(raw, "=", j) {
      Js.OccursAtElements(raw, "=", j);
      assert raw[j] == name[j];
    }
    Js.SplitFirst(name, "=", url);
    forall j | 0 <= j <= |url| ensures !Js.OccursAt(url, "=", j) {
      Js.OccursAtElements(url, "=", j);
    }
    Js.SplitNoSeparator(url, "=");
  }

  // ---------------------------------------------------------------- entries without a name

  /**
   * The duplicate check looks at the name, but a nameless entry is stored under its URL's
   * origin: two nameless entries with one origin load without an error, and the second
   * replaces the first (which survives only as `default`).
   */
  lemma NamelessOverwrite(u1: string, u2: string, parse: UrlParser)
    requires forall k :: 0 <= k < |u1| ==> u1[k] != '='
    requires forall k :: 0 <= k < |u2| ==> u2[k] != '='
    requires parse(u1).Some? && parse(u2).Some? && parse(u1).value.origin == parse(u2).value.origin
    requires parse(u1).value.origin != "default" && parse(u1).value.origin != ""
    ensures Load(["=" + u1, "=" + u2], map[], parse)
         == Success(map["default" := Server("", u1, "=" + u1), parse(u1).value.origin := Server("", u2, "=" + u2)])
  {
    NamedEntry("", u1, parse);
    NamedEntry("", u2, parse);
    assert "" + "=" + u1 == "=" + u1 && "" + "=" + u2 == "=" + u2;
    assert NameAndUrl("=" + u1, parse) == Success(("", u1));
    assert NameAndUrl("=" + u2, parse) == Success(("", u2));
    var entries := ["=" + u1, "=" + u2];
    var origin := parse(u1).value.origin;
    var first := map["default" := Server("", u1, "=" + u1), origin := Server("", u1, "=" + u1)];
    assert Step(map[], entries[0], parse) == Success(first);
    assert entries[1..] == [entries[1]] && entries[1..][1..] == [];
    assert "" !in first;
    assert KeyOf("", u2, parse) == Success(origin);
    assert first[origin := Server("", u2, "=" + u2)] == map["default" := Server("", u1, "=" + u1), origin := Server("", u2, "=" + u2)];
    assert Step(first, entries[1], parse)
        == Success(map["default" := Server("", u1, "=" + u1), origin := Server("", u2, "=" + u2)]);
    var last := map["default" := Server("", u1, "=" + u1), origin := Server("", u2, "=" + u2)];
    assert Load(entries[1..], first, parse) == Load([], last, parse);
  }

  /** The loop step with the duplicate check on the key an entry is stored under. */
  function StepByKey(servers: Servers, raw: string, parse: UrlParser): Result<Servers, ConfigError> {
    match NameAndUrl(raw, parse)
    case Failure(e) => Failure(e)
    case Success((name, url)) =>
      match KeyOf(name, url, parse)
      case Failure(e) => Failure(e)
      case Success(key) =>
        if key in servers then Failure(DuplicateName(key))
        else
          var server := Server(name, url, raw);
          var withDefault := if "default" in servers then servers else servers["default" := server];
          Success(withDefault[key := server])
  }

  function LoadByKey(entries: seq<string>, servers: Servers, parse: UrlParser): Result<Servers, ConfigError>
    decreases |entries|
  {
    if entries == [] then Success(servers)
    else match StepByKey(servers, entries[0], parse)
      case Failure(e) => Failure(e)
      case Success(next) => LoadByKey(entries[1..], next, parse)
  }

  /** The server an entry describes and the key it belongs under, when it parses. */
  function Stored(raw: string, parse: UrlParser): Option<(string, Server)> {
    match NameAndUrl(raw, parse)
    case Failure(_) => None
    case Success((name, url)) =>
      match KeyOf(name, url, parse)
      case Failure(_) => None
      case Success(key) => Some((key, Server(name, url, raw)))
  }

  /** A checked step stores its entry under a new key and changes no existing key. */
  lemma StepByKeyKeeps(servers: Servers, raw: string, parse: UrlParser)
    requires StepByKey(servers, raw, parse).Success?
    ensures Stored(raw, parse).Some?
    ensures var (key, server) := Stored(raw, parse).value;
      key !in servers && key in StepByKey(servers, raw, parse).value
      && StepByKey(servers, raw, parse).value[key] == server
    ensures forall k :: k in servers ==>
      k in StepByKey(servers, raw, parse).value && StepByKey(servers, raw, parse).value[k] == servers[k]
  {
  }

  lemma {:induction false} LoadByKeyKeeps(entries: seq<string>, servers: Servers, parse: UrlParser)
    requires LoadByKey(entries, servers, parse).Success?
    ensures forall k :: k in servers ==>
      k in LoadByKey(entries, servers, parse).value && LoadByKey(entries, servers, parse).value[k] == servers[k]
    decreases |entries|
  {
    if entries != [] {
      StepByKeyKeeps(servers, entries[0], parse);
      LoadByKeyKeeps(entries[1..], StepByKey(servers, entries[0], parse).value, parse);
    }
  }

  /** With the check on the key, a successful load holds every entry's own server under its key. */
  lemma {:induction false} LoadByKeyStoresEvery(entries: seq<string>, servers: Servers, parse: UrlParser, i: nat)
    requires i < |entries| && LoadByKey(entries, servers, parse).Success?
    ensures Stored(entries[i], parse).Some?
    ensures var (key, server) := Stored(entries[i], parse).value;
      key in LoadByKey(entries, servers, parse).value && LoadByKey(entries, servers, parse).value[key] == server
    decreases |entries|
  {
    StepByKeyKeeps(servers, entries[0], parse);
    var next := StepByKey(servers, entries[0], parse).value;
    if i == 0 {
      LoadByKeyKeeps(entries[1..], next, parse);
    } else {
      assert entries[1..][i - 1] == entries[i];
      LoadByKeyStoresEvery(entries[1..], next, parse, i - 1);
    }
  }
}
