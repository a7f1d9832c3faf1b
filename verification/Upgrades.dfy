/** Registration of upgrade handlers and of the store loader for the upgrade at hand. */
module Upgrades {
  import opened Results

  datatype StoreUpgrades = StoreUpgrades(added: seq<string>, deleted: seq<string>)

  /** handler stands for the function that the upgrade creates its handler with. */
  datatype Upgrade = Upgrade(name: string, handler: nat, stores: StoreUpgrades)

  /** The upgrade that the running binary was started for, as read from disk. */
  datatype UpgradeInfo = UpgradeInfo(name: string, height: int)

  datatype StoreLoader = StoreLoader(height: int, stores: StoreUpgrades)

  const NOOP_HANDLER: nat := 0

  function Noop(version: string): Upgrade {
    Upgrade(version, NOOP_HANDLER, StoreUpgrades([], []))
  }

  /** The list after registration: an empty list gets the no-op upgrade of the running version. */
  function Listed(list: seq<Upgrade>, version: string): seq<Upgrade> {
    if list == [] then [Noop(version)] else list
  }

  function FirstNamed(list: seq<Upgrade>, name: string): (r: Option<Upgrade>)
    ensures r.None? <==> forall u | u in list :: u.name != name
    ensures r.Some? ==> r.value in list && r.value.name == name
  {
    if list == [] then None
    else if list[0].name == name then Some(list[0])
    else FirstNamed(list[1..], name)
  }

  function LastNamed(list: seq<Upgrade>, name: string): (r: Option<Upgrade>)
    ensures r.None? <==> forall u | u in list :: u.name != name
    ensures r.Some? ==> r.value in list && r.value.name == name
  {
    if list == [] then None
    else if list[|list| - 1].name == name then Some(list[|list| - 1])
    else
      assert list == list[..|list| - 1] + [list[|list| - 1]];
      LastNamed(list[..|list| - 1], name)
  }

  /** The first lookup stops at an upgrade that no earlier one shares its name with. */
  lemma {:induction false} FirstStopsAt(list: seq<Upgrade>, i: nat)
    requires i < |list| && forall j | 0 <= j < i :: list[j].name != list[i].name
    ensures FirstNamed(list, list[i].name) == Some(list[i])
    decreases |list|
  {
    if 0 < i {
      var rest := list[1..];
      assert forall j | 0 <= j < |rest| :: rest[j] == list[j + 1];
      FirstStopsAt(rest, i - 1);
    }
  }

  /** The last lookup stops at an upgrade that no later one shares its name with. */
  lemma {:induction false} LastStopsAt(list: seq<Upgrade>, i: nat)
    requires i < |list| && forall j | i < j < |list| :: list[j].name != list[i].name
    ensures LastNamed(list, list[i].name) == Some(list[i])
    decreases |list|
  {
    if i < |list| - 1 {
      var front := list[..|list| - 1];
      assert forall j | 0 <= j < |front| :: front[j] == list[j];
      LastStopsAt(front, i);
    }
  }

  /** The handlers after one write for every upgrade of the list, in order. */
  function Registered(handlers: map<string, nat>, list: seq<Upgrade>): map<string, nat> {
    if list == [] then handlers
    else Registered(handlers, list[..|list| - 1])[list[|list| - 1].name := list[|list| - 1].handler]
  }

  /** The last write of a name wins, and names that are not listed keep the handler they had. */
  lemma {:induction false} LastWriteWins(handlers: map<string, nat>, list: seq<Upgrade>, name: string)
    ensures var r := Registered(handlers, list);
            match LastNamed(list, name)
            case Some(u) => name in r && r[name] == u.handler
            case None => (name in r <==> name in handlers) && (name in r ==> r[name] == handlers[name])
  {
    if list != [] {
      LastWriteWins(handlers, list[..|list| - 1], name);
    }
  }

  ghost predicate DistinctNames(list: seq<Upgrade>) {
    forall i, j | 0 <= i < j < |list| :: list[i].name != list[j].name
  }

  /** With distinct names the first match and the last write are the same upgrade. */
  lemma FirstIsLast(list: seq<Upgrade>, name: string)
    requires DistinctNames(list)
    ensures FirstNamed(list, name) == LastNamed(list, name)
  {
    hide FirstNamed, LastNamed;
    if FirstNamed(list, name).Some? {
      var i :| 0 <= i < |list| && list[i] == FirstNamed(list, name).value;
      assert list[i] in list && LastNamed(list, name).Some?;
      var j :| 0 <= j < |list| && list[j] == LastNamed(list, name).value;
      assert list[i].name == name && list[j].name == name;
      assert !(i < j) && !(j < i);
    }
  }

  /** The list shared by all applications of the process. */
  class UpgradeList {
    var upgrades: seq<Upgrade>

    constructor (upgrades: seq<Upgrade>)
      ensures this.upgrades == upgrades
    {
      this.upgrades := upgrades;
    }
  }

  class UpgradingApp {
    const version: string
    const skipHeights: set<int>
    var handlers: map<string, nat>
    var loader: Option<StoreLoader>

    constructor (version: string, skipHeights: set<int>)
      ensures this.version == version && this.skipHeights == skipHeights
      ensures handlers == map[] && loader == None
    {
      this.version, this.skipHeights := version, skipHeights;
      handlers, loader := map[], None;
    }

    /** info is None when the upgrade info on disk cannot be read, which panics after the handlers are set. */
    method RegisterUpgradeHandlers(list: UpgradeList, info: Option<UpgradeInfo>) returns (panicked: bool)
      modifies this, list
      ensures list.upgrades == Listed(old(list.upgrades), version)
      ensures handlers == Registered(old(handlers), list.upgrades)
      ensures panicked <==> info.None?
      // first match wins; no loader is installed at a skipped height
      ensures loader == if info.None? || info.value.height in skipHeights then old(loader)
                        else match FirstNamed(list.upgrades, info.value.name)
                          case Some(u) => Some(StoreLoader(info.value.height, u.stores))
                          case None => old(loader)
      // with distinct names the stores loaded and the handler that will run belong to one upgrade
      ensures DistinctNames(list.upgrades) && loader != old(loader) ==>
                exists u | u in list.upgrades ::
                  && info.value.name == u.name && loader == Some(StoreLoader(info.value.height, u.stores))
                  && u.name in handlers && handlers[u.name] == u.handler
    {
      if |list.upgrades| == 0 {
        list.upgrades := list.upgrades + [Noop(version)];
      }
      var all := list.upgrades;
      SetHandlers(all);
      if info.None? {
        return true;
      }
      if info.value.height in skipHeights {
        return false;
      }
      InstallLoader(all, info.value);
      if DistinctNames(all) {
        FirstIsLast(all, info.value.name);
        LastWriteWins(old(handlers), all, info.value.name);
      }
      return false;
    }

    method SetHandlers(all: seq<Upgrade>)
      modifies `handlers
      ensures handlers == Registered(old(handlers), all)
    {
      for i := 0 to |all|
        invariant handlers == Registered(old(handlers), all[..i])
      {
        assert all[..i + 1][..i] == all[..i];
        handlers := handlers[all[i].name := all[i].handler];
      }
      assert all[..|all|] == all;
    }

    method InstallLoader(all: seq<Upgrade>, info: UpgradeInfo)
      modifies `loader
      ensures loader == match FirstNamed(all, info.name)
                        case Some(u) => Some(StoreLoader(info.height, u.stores))
                        case None => old(loader)
    {
      for i := 0 to |all|
        invariant loader == old(loader)
        invariant FirstNamed(all, info.name) == FirstNamed(all[i..], info.name)
      {
        if info.name == all[i].name {
          loader := Some(StoreLoader(info.height, all[i].stores));
          break;
        }
        assert all[i..][1..] == all[i + 1..];
      }
    }
  }

  // ---------------------------------------------------------------------------------------------
  // Building the application again and again in one process
  // ---------------------------------------------------------------------------------------------

  /** The shared list after applications of these versions were built one after the other. */
  function AfterBuilds(list: seq<Upgrade>, versions: seq<string>): seq<Upgrade>
    decreases |versions|
  {
    if versions == [] then list else AfterBuilds(Listed(list, versions[0]), versions[1..])
  }

  /** The no-op upgrade is added at most once, by the first build, and only to an empty list. */
  lemma {:induction false} BuildsAddAtMostOne(list: seq<Upgrade>, versions: seq<string>)
    ensures AfterBuilds(list, versions) ==
            if list == [] && versions != []
            then [Upgrade(versions[0], NOOP_HANDLER, StoreUpgrades([], []))]
            else list
    decreases |versions|
  {
    if versions == [] {
    } else {
      BuildsAddAtMostOne(Listed(list, versions[0]), versions[1..]);
    }
  }

  /**
    From an empty list, the application built last finds a handler for its own version exactly when that version
    is the one built first: the no-op upgrade is not renamed for later versions.
   */
  lemma NoopServesFirstVersionOnly(versions: seq<string>)
    requires versions != []
    ensures LastNamed(AfterBuilds([], versions), versions[|versions| - 1]).Some?
            <==> versions[|versions| - 1] == versions[0]
  {
    BuildsAddAtMostOne([], versions);
    assert Noop(versions[0]) in [Noop(versions[0])];
  }
}
