/**
  Where the application keeps its data: a per-platform base directory found through a
  fallback chain of environment variables, with the application's own directory below
  it. Paths are sequences of components; an environment value becomes one component,
  taken verbatim.
*/
module AppPath {
  import opened Options

  datatype Platform = Windows | MacOs | OtherUnix

  /**
    The process environment as `env::var_os` answers it: for each name the code asks
    for, the value when that variable is set. On Windows `var_os` matches names without
    regard to case; the map holds its answer under the name as the code spells it.
  */
  type Env = map<string, string>

  datatype PathBuf = PathBuf(components: seq<string>)

  const ApplicationName: string := "omni"

  /** `PathBuf::from` an environment value. */
  function FromOs(value: string): PathBuf
  {
    PathBuf([value])
  }

  /** `join` with a constant relative name: one more component. */
  function Join(p: PathBuf, name: string): PathBuf
  {
    PathBuf(p.components + [name])
  }

  /** Two joins below an environment value give a three-component path. */
  lemma JoinTwice(value: string, first: string, second: string)
    ensures Join(Join(FromOs(value), first), second) == PathBuf([value, first, second])
  {
    assert ([value] + [first]) + [second] == [value, first, second];
  }

  function PlatformAppDataBase(platform: Platform, env: Env): (r: Result<PathBuf, string>)
    // Windows: LOCALAPPDATA as it is, else USERPROFILE/AppData/Local, else an error
    ensures platform == Windows && "LOCALAPPDATA" in env ==> r == Ok(FromOs(env["LOCALAPPDATA"]))
    ensures platform == Windows && "LOCALAPPDATA" !in env && "USERPROFILE" in env ==>
      r == Ok(PathBuf([env["USERPROFILE"], "AppData", "Local"]))
    ensures platform == Windows && "LOCALAPPDATA" !in env && "USERPROFILE" !in env ==>
      r == Err("The LOCALAPPDATA and USERPROFILE environment variables are not set")
    // macOS: HOME/Library/Application Support, else an error
    ensures platform == MacOs && "HOME" in env ==> r == Ok(PathBuf([env["HOME"], "Library", "Application Support"]))
    ensures platform == MacOs && "HOME" !in env ==> r == Err("Missing $HOME in environment")
    // other Unix: XDG_DATA_HOME as it is, before HOME/.local/share, else an error
    ensures platform == OtherUnix && "XDG_DATA_HOME" in env ==> r == Ok(FromOs(env["XDG_DATA_HOME"]))
    ensures platform == OtherUnix && "XDG_DATA_HOME" !in env && "HOME" in env ==>
      r == Ok(PathBuf([env["HOME"], ".local", "share"]))
    ensures platform == OtherUnix && "XDG_DATA_HOME" !in env && "HOME" !in env ==>
      r == Err("The XDG_DATA_HOME and HOME environment variables are not set")
  {
    match platform
    case Windows =>
      if "LOCALAPPDATA" in env then Ok(FromOs(env["LOCALAPPDATA"]))
      else if "USERPROFILE" in env then
        JoinTwice(env["USERPROFILE"], "AppData", "Local");
        Ok(Join(Join(FromOs(env["USERPROFILE"]), "AppData"), "Local"))
      else Err("The LOCALAPPDATA and USERPROFILE environment variables are not set")
    case MacOs =>
      if "HOME" in env then
        JoinTwice(env["HOME"], "Library", "Application Support");
        Ok(Join(Join(FromOs(env["HOME"]), "Library"), "Application Support"))
      else Err("Missing $HOME in environment")
    case OtherUnix =>
      if "XDG_DATA_HOME" in env then Ok(FromOs(env["XDG_DATA_HOME"]))
      else if "HOME" in env then
        JoinTwice(env["HOME"], ".local", "share");
        Ok(Join(Join(FromOs(env["HOME"]), ".local"), "share"))
      else Err("The XDG_DATA_HOME and HOME environment variables are not set")
  }

  function AppDataDir(platform: Platform, env: Env): (r: Result<PathBuf, string>)
    // an error from the platform base comes back unchanged
    ensures PlatformAppDataBase(platform, env).Err? ==> r == PlatformAppDataBase(platform, env)
    // otherwise the result is the base with the application's directory below it
    ensures PlatformAppDataBase(platform, env).Ok? ==>
      r.Ok? && r.value.components == PlatformAppDataBase(platform, env).value.components + [ApplicationName]
  {
    match PlatformAppDataBase(platform, env)
    case Err(e) => Err(e)
    case Ok(base) => Ok(Join(base, ApplicationName))
  }

  /** One rung of a fallback chain: the value of variable `name`, with `suffix` below it. */
  datatype Rung = Rung(name: string, suffix: seq<string>)

  /** Each platform's chain, most preferred first. */
  function Chain(platform: Platform): seq<Rung>
  {
    match platform
    case Windows => [Rung("LOCALAPPDATA", []), Rung("USERPROFILE", ["AppData", "Local"])]
    case MacOs => [Rung("HOME", ["Library", "Application Support"])]
    case OtherUnix => [Rung("XDG_DATA_HOME", []), Rung("HOME", [".local", "share"])]
  }

  /** The error each platform reports when no rung applies. */
  function MissingMessage(platform: Platform): string
  {
    match platform
    case Windows => "The LOCALAPPDATA and USERPROFILE environment variables are not set"
    case MacOs => "Missing $HOME in environment"
    case OtherUnix => "The XDG_DATA_HOME and HOME environment variables are not set"
  }

  /** The path of the first rung whose variable is set. */
  function FirstSet(env: Env, chain: seq<Rung>): Option<PathBuf>
    decreases |chain|
  {
    if |chain| == 0 then None
    else if chain[0].name in env then Some(PathBuf([env[chain[0].name]] + chain[0].suffix))
    else FirstSet(env, chain[1..])
  }

  /** A chain yields a path exactly when one of its variables is set, and then the earliest set one's. */
  lemma {:induction false} FirstSetPicksEarliest(env: Env, chain: seq<Rung>)
    ensures FirstSet(env, chain).Some? <==> exists i :: 0 <= i < |chain| && chain[i].name in env
    ensures FirstSet(env, chain).Some? ==>
      exists i :: 0 <= i < |chain| && chain[i].name in env
        && (forall j :: 0 <= j < i ==> chain[j].name !in env)
        && FirstSet(env, chain).value == PathBuf([env[chain[i].name]] + chain[i].suffix)
    decreases |chain|
  {
    if |chain| > 0 {
      FirstSetPicksEarliest(env, chain[1..]);
      if chain[0].name !in env {
        if FirstSet(env, chain).Some? {
          var i :| 0 <= i < |chain[1..]| && chain[1..][i].name in env
            && (forall j :: 0 <= j < i ==> chain[1..][j].name !in env)
            && FirstSet(env, chain[1..]).value == PathBuf([env[chain[1..][i].name]] + chain[1..][i].suffix);
          assert chain[i + 1] == chain[1..][i];
          assert forall j :: 0 <= j < i + 1 ==> chain[j].name !in env by {
            forall j | 0 <= j < i + 1 ensures chain[j].name !in env {
              if j > 0 { assert chain[j] == chain[1..][j - 1]; }
            }
          }
        } else {
          forall i | 0 <= i < |chain| ensures chain[i].name !in env {
            if i > 0 { assert chain[i] == chain[1..][i - 1]; }
          }
        }
      }
    }
  }

  /** The platform base is the first set rung of the platform's chain, or the platform's error. */
  lemma BaseFollowsChain(platform: Platform, env: Env)
    ensures PlatformAppDataBase(platform, env) ==
      match FirstSet(env, Chain(platform))
      case Some(p) => Ok(p)
      case None => Err(MissingMessage(platform))
  {
    var chain := Chain(platform);
    assert FirstSet(env, []) == None;
    match platform
    case MacOs =>
      assert chain[1..] == [];
      if "HOME" in env {
        var h := env["HOME"];
        assert [h] + ["Library", "Application Support"] == ([h] + ["Library"]) + ["Application Support"];
      }
    case Windows =>
      assert chain[1..] == [Rung("USERPROFILE", ["AppData", "Local"])] && chain[1..][1..] == [];
      if "LOCALAPPDATA" in env {
        assert [env["LOCALAPPDATA"]] + [] == [env["LOCALAPPDATA"]];
      } else if "USERPROFILE" in env {
        var u := env["USERPROFILE"];
        assert [u] + ["AppData", "Local"] == ([u] + ["AppData"]) + ["Local"];
      }
    case OtherUnix =>
      assert chain[1..] == [Rung("HOME", [".local", "share"])] && chain[1..][1..] == [];
      if "XDG_DATA_HOME" in env {
        assert [env["XDG_DATA_HOME"]] + [] == [env["XDG_DATA_HOME"]];
      } else if "HOME" in env {
        var h := env["HOME"];
        assert [h] + [".local", "share"] == ([h] + [".local"]) + ["share"];
      }
  }

  /**
    The application directory exists exactly when a variable of the platform's chain is
    set, and is then the earliest set variable's value, that rung's suffix, and "omni".
  */
  lemma AppDataDirFromChain(platform: Platform, env: Env)
    ensures var chain := Chain(platform);
      && (AppDataDir(platform, env).Ok? <==> exists i :: 0 <= i < |chain| && chain[i].name in env)
      && (AppDataDir(platform, env).Err? ==> AppDataDir(platform, env).error == MissingMessage(platform))
      && (AppDataDir(platform, env).Ok? ==>
            exists i :: 0 <= i < |chain| && chain[i].name in env
              && (forall j :: 0 <= j < i ==> chain[j].name !in env)
              && AppDataDir(platform, env).value.components == [env[chain[i].name]] + chain[i].suffix + [ApplicationName])
  {
    BaseFollowsChain(platform, env);
    FirstSetPicksEarliest(env, Chain(platform));
  }

  /** Outside macOS on Unix, a set XDG_DATA_HOME wins over HOME and is used as it is. */
  lemma XdgTakesPrecedence(env: Env)
    requires "XDG_DATA_HOME" in env
    ensures AppDataDir(OtherUnix, env) == Ok(PathBuf([env["XDG_DATA_HOME"], ApplicationName]))
  {
    assert [env["XDG_DATA_HOME"]] + [ApplicationName] == [env["XDG_DATA_HOME"], ApplicationName];
  }
}
