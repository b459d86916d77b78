/** The record store and sync engine of the `AppTrack` window as a state
    machine over values: one function per method of the window that changes
    the table, the sync flag or the timer queue, and the lemmas about them.
    The class in module AppTrackModel is proved against these functions. */
module Engine {
  import opened Wrappers
  import opened Text
  import opened Records
  import opened ConfigStore

  /** Delay of every timer the window arms, in milliseconds. */
  const SyncIntervalMs: nat := 60000

  /** What a pending `after` timer will call: `schedule_sync` (one link of a
      self-re-arming pull chain) or `sync_to_google_sheets` (a one-off push). */
  datatype Callback = PullTick | PushOnce

  datatype Timer = Timer(delayMs: nat, action: Callback)

  /** Effects outside the process: a successful write of the local file, or
      a successful overwrite of the remote sheet, with the table written. */
  datatype Effect = SavedLocally(table: Table) | PushedRemote(table: Table)

  datatype State = State(
    rows: Table,                  // applications_df
    syncToGoogle: bool,           // sync_to_google
    syncTask: Option<nat>,        // sync_task, the last handle schedule_sync stored
    timers: map<nat, Timer>,      // the pending `after` callbacks, by handle
    nextHandle: nat,              // the handle the next `after` returns
    config: Option<Config>,       // the settings file, None while it does not exist
    effects: seq<Effect>)         // saves and pushes that succeeded, in order

  /** Handles are fresh, and the stored handle, when there is one, names a
      pending pull tick. */
  predicate Valid(s: State) {
    && (forall h :: h in s.timers ==> h < s.nextHandle)
    && (s.syncTask.Some? ==> s.syncTask.value in s.timers && s.timers[s.syncTask.value].action == PullTick)
  }

  /** The handles of the live pull chains. */
  function PullChains(timers: map<nat, Timer>): set<nat> {
    set h | h in timers && timers[h].action == PullTick
  }

  function ChainCount(s: State): nat {
    |PullChains(s.timers)|
  }

  // ---------------------------------------------------------------------
  // Effects

  /** `save_applications_to_excel`, writing the file when `ok`. */
  function SaveLocally(s: State, ok: bool): State {
    if ok then s.(effects := s.effects + [SavedLocally(s.rows)]) else s
  }

  /** `sync_to_google_sheets`; also what every other caller of
      `write_to_google_sheets` does under its own `if self.sync_to_google`:
      push the whole table, and swallow a failure. */
  function SyncToGoogleSheets(s: State, pushOk: bool): State {
    if s.syncToGoogle && pushOk then s.(effects := s.effects + [PushedRemote(s.rows)]) else s
  }

  // ---------------------------------------------------------------------
  // Table operations

  /** `save_application`. A failed local save raises out of the method, so
      the push after it does not happen. */
  function SaveApplication(s: State, company: string, position: string, url: string, today: string,
                           saveOk: bool, pushOk: bool): State
  {
    match AddApplication(s.rows, company, position, url, today)
    case Failure(_) => s
    case Success(t) =>
      var s1 := s.(rows := t);
      if !saveOk then s1 else SyncToGoogleSheets(SaveLocally(s1, true), pushOk)
  }

  /** `delete_rows`: nothing for an empty selection; otherwise drop the rows
      by label in descending id order, reset the index, push, then save. */
  function DeleteRows(s: State, ids: seq<int>, pushOk: bool, saveOk: bool): State {
    if ids == [] then s
    else
      var s1 := s.(rows := Delete(s.rows, set i | i in ids));
      SaveLocally(SyncToGoogleSheets(s1, pushOk), saveOk)
  }

  /** `save_edit`: `entry` is the text of the open editor, `None` when no
      editor is open. A failed save raises before the push. */
  function SaveEdit(s: State, id: nat, c: Column, entry: Option<string>, saveOk: bool, pushOk: bool): State {
    match entry
    case None => s
    case Some(v) =>
      var s1 := s.(rows := SetCell(s.rows, id, c, v));
      if !saveOk then s1 else SyncToGoogleSheets(SaveLocally(s1, true), pushOk)
  }

  /** `save_direct_edit`: write the cell and save; no push. */
  function SaveDirectEdit(s: State, id: nat, c: Column, v: string, saveOk: bool): State {
    SaveLocally(s.(rows := SetCell(s.rows, id, c, v)), saveOk)
  }

  /** `save_status`: write the chosen status; a failed save is caught and the
      push still happens. */
  function SaveStatus(s: State, id: nat, choice: StatusChoice, saveOk: bool, pushOk: bool): State {
    SyncToGoogleSheets(SaveLocally(s.(rows := SetCell(s.rows, id, Status, StatusName(choice))), saveOk), pushOk)
  }

  /** `sync_from_google_sheets`: `fetched` is `None` when reading the sheet
      raised. */
  function SyncFromGoogleSheets(s: State, fetched: Option<seq<RemoteRecord>>): State {
    s.(rows := Pulled(s.syncToGoogle, s.rows, fetched))
  }

  // ---------------------------------------------------------------------
  // Timers and the sync flag

  /** `self.after(60000, action)`. */
  function Arm(s: State, action: Callback): State {
    s.(timers := s.timers[s.nextHandle := Timer(SyncIntervalMs, action)], nextHandle := s.nextHandle + 1)
  }

  /** `schedule_sync`: arm the next tick and store its handle, then pull when
      sync is on. */
  function ScheduleSync(s: State, fetched: Option<seq<RemoteRecord>>): State {
    var s1 := Arm(s, PullTick).(syncTask := Some(s.nextHandle));
    if s1.syncToGoogle then SyncFromGoogleSheets(s1, fetched) else s1
  }

  /** `update_config(**updates)`; `ok` is false when reading or writing the
      file raised, which leaves it as it was. */
  function UpdateConfigFile(s: State, updates: Config, ok: bool, defaults: Config): State {
    if ok then s.(config := Some(UpdateConfig(s.config, defaults, updates))) else s
  }

  /** `toggle_sync`, with `enable` the new check-box value. */
  function ToggleSync(s: State, enable: bool, configOk: bool, defaults: Config,
                      fetched: Option<seq<RemoteRecord>>, pushOk: bool): State
  {
    var s1 := UpdateConfigFile(s.(syncToGoogle := enable), map[EnableGoogleSync := Flag(enable)], configOk, defaults);
    var s2 := if !enable && s1.syncTask.Some?
              then s1.(timers := s1.timers - {s1.syncTask.value}, syncTask := None)
              else s1;
    if enable then SyncToGoogleSheets(ScheduleSync(s2, fetched), pushOk) else s2
  }

  /** The Tk event loop running the pending timer `h`: it leaves the queue
      and its callback runs. A handle that is not pending does nothing. */
  function FireTimer(s: State, h: nat, fetched: Option<seq<RemoteRecord>>, pushOk: bool): State {
    if h !in s.timers then s
    else
      var s1 := s.(timers := s.timers - {h});
      match s.timers[h].action
      case PullTick => ScheduleSync(s1, fetched)
      case PushOnce => SyncToGoogleSheets(s1, pushOk)
  }

  /** `schedule_tasks`: with sync on, a one-off push and a pull chain. */
  function ScheduleTasks(s: State, fetched: Option<seq<RemoteRecord>>): State {
    if s.syncToGoogle then ScheduleSync(Arm(s, PushOnce), fetched) else s
  }

  /** The part of `__init__` that sets up the table and the sync state: the
      flag from the settings, the table from the local file (`None` when
      reading it raised), `schedule_tasks`, then `sync_task = None` and one
      more `schedule_sync`. */
  function Startup(enable: bool, loaded: Option<Table>, config: Option<Config>,
                   firstPull: Option<seq<RemoteRecord>>, secondPull: Option<seq<RemoteRecord>>): State
  {
    var s0 := State(loaded.GetOr([]), enable, None, map[], 0, config, []);
    var s1 := ScheduleTasks(s0, firstPull);
    ScheduleSync(s1.(syncTask := None), secondPull)
  }

  /** One timer firing, with what the sheet returns and whether a push
      succeeds if that callback does either. */
  datatype Tick = Tick(handle: nat, fetched: Option<seq<RemoteRecord>>, pushOk: bool)

  function Run(s: State, ticks: seq<Tick>): State
    decreases |ticks|
  {
    if ticks == [] then s
    else Run(FireTimer(s, ticks[0].handle, ticks[0].fetched, ticks[0].pushOk), ticks[1..])
  }

  // ---------------------------------------------------------------------
  // Lemmas: table operations

  /** Add leaves the whole state untouched exactly when Company or Position
      is blank after stripping: no row, no save, no push. */
  lemma SaveApplicationRejects(s: State, company: string, position: string, url: string, today: string,
                               saveOk: bool, pushOk: bool)
    ensures SaveApplication(s, company, position, url, today, saveOk, pushOk) == s
        <==> AllSpace(company) || AllSpace(position)
  {
    var r := SaveApplication(s, company, position, url, today, saveOk, pushOk);
    if !(AllSpace(company) || AllSpace(position)) {
      assert |r.rows| == |s.rows| + 1;
    }
  }

  /** A successful Add appends the new row, saves the new table, and pushes
      it when sync is on, in that order; the sync state is untouched. */
  lemma SaveApplicationAppends(s: State, company: string, position: string, url: string, today: string,
                               saveOk: bool, pushOk: bool)
    requires !AllSpace(company) && !AllSpace(position)
    ensures var r := SaveApplication(s, company, position, url, today, saveOk, pushOk);
      && r.rows == s.rows + [Record(Strip(company), Strip(position), Strip(url), today, "Submitted")]
      && (!saveOk ==> r.effects == s.effects)
      && (saveOk && !(s.syncToGoogle && pushOk) ==> r.effects == s.effects + [SavedLocally(r.rows)])
      && (saveOk && s.syncToGoogle && pushOk ==>
            r.effects == s.effects + [SavedLocally(r.rows)] + [PushedRemote(r.rows)])
      && r.syncToGoogle == s.syncToGoogle && r.syncTask == s.syncTask && r.timers == s.timers
  {
    AddAppends(s.rows, company, position, url, today);
  }

  /** An empty selection deletes nothing, saves nothing and pushes nothing. */
  lemma DeleteNothingSelected(s: State, pushOk: bool, saveOk: bool)
    ensures DeleteRows(s, [], pushOk, saveOk) == s
  {
  }

  /** Deleting one present row removes it, renumbers the rest, then pushes
      (when sync is on) and saves the new table. */
  lemma DeleteRowsOne(s: State, k: nat, pushOk: bool, saveOk: bool)
    requires k < |s.rows|
    ensures var r := DeleteRows(s, [k], pushOk, saveOk);
      && r.rows == s.rows[..k] + s.rows[k + 1..]
      && var pushed := s.syncToGoogle && pushOk;
      && (pushed && saveOk ==> r.effects == s.effects + [PushedRemote(r.rows)] + [SavedLocally(r.rows)])
      && (pushed && !saveOk ==> r.effects == s.effects + [PushedRemote(r.rows)])
      && (!pushed && saveOk ==> r.effects == s.effects + [SavedLocally(r.rows)])
      && (!pushed && !saveOk ==> r.effects == s.effects)
  {
    assert (set i | i in [k]) == {k};
    DeleteOne(s.rows, k);
  }

  /** Picking a status for an existing row rewrites that row's Status and
      nothing else in the table. */
  lemma SaveStatusSetsRow(s: State, id: nat, choice: StatusChoice, saveOk: bool, pushOk: bool)
    requires id < |s.rows|
    ensures SaveStatus(s, id, choice, saveOk, pushOk).rows == s.rows[id := s.rows[id].(status := StatusName(choice))]
  {
  }

  /** A status picked from the drop-down keeps every status valid. */
  lemma SaveStatusKeepsStatusesValid(s: State, id: nat, choice: StatusChoice, saveOk: bool, pushOk: bool)
    requires StatusesValid(s.rows)
    ensures StatusesValid(SaveStatus(s, id, choice, saveOk, pushOk).rows)
  {
    SetStatusKeepsStatusesValid(s.rows, id, choice);
  }

  // ---------------------------------------------------------------------
  // Lemmas: pull, push and their failures

  /** A pull that raises, or any pull while sync is off, leaves the state as
      it was; no pull ever changes the flag, the timers or the effects. */
  lemma PullFailureKeepsState(s: State, fetched: Option<seq<RemoteRecord>>)
    ensures fetched.None? || !s.syncToGoogle ==> SyncFromGoogleSheets(s, fetched) == s
    ensures var r := SyncFromGoogleSheets(s, fetched);
      r.syncToGoogle == s.syncToGoogle && r.timers == s.timers && r.effects == s.effects
  {
  }

  /** A pull that reads a non-empty sheet leaves the local table equal to the
      filled sheet, replacing it only when the two differ. */
  lemma PullAdoptsRemote(s: State, rs: seq<RemoteRecord>)
    requires s.syncToGoogle && |rs| > 0
    ensures SyncFromGoogleSheets(s, Some(rs)).rows == FillAll(rs)
    ensures SyncFromGoogleSheets(s, Some(rs)) == s <==> FillAll(rs) == s.rows
  {
  }

  /** A push that fails leaves the state as it was, sync stays on. */
  lemma PushFailureKeepsState(s: State)
    ensures SyncToGoogleSheets(s, false) == s
  {
  }

  /** A successful push while sync is on records exactly the current table. */
  lemma PushSendsWholeTable(s: State)
    requires s.syncToGoogle
    ensures SyncToGoogleSheets(s, true).effects == s.effects + [PushedRemote(s.rows)]
    ensures SyncToGoogleSheets(s, true).rows == s.rows
  {
  }

  // ---------------------------------------------------------------------
  // Lemmas: timers and the sync flag

  lemma {:induction false} ArmPullTick(s: State)
    requires Valid(s)
    ensures PullChains(Arm(s, PullTick).timers) == PullChains(s.timers) + {s.nextHandle}
    ensures s.nextHandle !in PullChains(s.timers)
  {
  }

  lemma {:induction false} ArmPushOnce(s: State)
    requires Valid(s)
    ensures PullChains(Arm(s, PushOnce).timers) == PullChains(s.timers)
  {
  }

  /** `schedule_sync` always arms one new 60000 ms pull tick, stores its
      handle and keeps every timer already pending; it pulls only when sync
      is on. */
  lemma ScheduleSyncArms(s: State, fetched: Option<seq<RemoteRecord>>)
    requires Valid(s)
    ensures var r := ScheduleSync(s, fetched);
      && Valid(r)
      && ChainCount(r) == ChainCount(s) + 1
      && r.syncTask == Some(s.nextHandle) && s.nextHandle !in s.timers
      && r.timers[s.nextHandle] == Timer(SyncIntervalMs, PullTick)
      && (forall h :: h in s.timers ==> h in r.timers && r.timers[h] == s.timers[h])
      && r.rows == (if s.syncToGoogle then Pulled(true, s.rows, fetched) else s.rows)
      && r.syncToGoogle == s.syncToGoogle && r.effects == s.effects
  {
    ArmPullTick(s);
  }

  /** Unticking the box cancels the stored handle and forgets it: one chain
      fewer when a handle was stored; the table is not touched. */
  lemma DisableCancelsStoredChain(s: State, configOk: bool, defaults: Config,
                                  fetched: Option<seq<RemoteRecord>>, pushOk: bool)
    requires Valid(s)
    ensures var r := ToggleSync(s, false, configOk, defaults, fetched, pushOk);
      && Valid(r) && !r.syncToGoogle && r.syncTask == None
      && ChainCount(r) == ChainCount(s) - (if s.syncTask.Some? then 1 else 0)
      && (s.syncTask.Some? ==> s.syncTask.value !in r.timers)
      && r.rows == s.rows && r.effects == s.effects
  {
    if s.syncTask.Some? {
      var h := s.syncTask.value;
      assert PullChains(s.timers - {h}) == PullChains(s.timers) - {h};
    }
  }

  /** Ticking the box arms one more chain without cancelling any pending
      timer, pulls, then pushes the (possibly pulled) table. */
  lemma EnableArmsAndPushes(s: State, configOk: bool, defaults: Config,
                            fetched: Option<seq<RemoteRecord>>, pushOk: bool)
    requires Valid(s)
    ensures var r := ToggleSync(s, true, configOk, defaults, fetched, pushOk);
      && Valid(r) && r.syncToGoogle
      && ChainCount(r) == ChainCount(s) + 1
      && (forall h :: h in s.timers ==> h in r.timers)
      && r.rows == Pulled(true, s.rows, fetched)
      && r.effects == s.effects + (if pushOk then [PushedRemote(r.rows)] else [])
  {
    var s1 := UpdateConfigFile(s.(syncToGoogle := true), map[EnableGoogleSync := Flag(true)], configOk, defaults);
    ScheduleSyncArms(s1, fetched);
  }

  /** Toggling records the new value of the flag in the settings file when
      writing it succeeds, keeping every other setting. */
  lemma ToggleWritesSetting(s: State, enable: bool, defaults: Config,
                            fetched: Option<seq<RemoteRecord>>, pushOk: bool)
    ensures var r := ToggleSync(s, enable, true, defaults, fetched, pushOk);
      && r.config.Some? && r.config.value[EnableGoogleSync] == Flag(enable)
      && (forall k :: k in s.config.GetOr(defaults) && k != EnableGoogleSync ==>
            k in r.config.value && r.config.value[k] == s.config.GetOr(defaults)[k])
  {
  }

  /** Start-up leaves one pull chain with sync off, and two with sync on:
      `schedule_tasks` arms one and its handle is then overwritten by the
      second `schedule_sync`. */
  lemma StartupChains(enable: bool, loaded: Option<Table>, config: Option<Config>,
                      firstPull: Option<seq<RemoteRecord>>, secondPull: Option<seq<RemoteRecord>>)
    ensures var s := Startup(enable, loaded, config, firstPull, secondPull);
      && Valid(s) && s.syncToGoogle == enable
      && ChainCount(s) == (if enable then 2 else 1)
      && s.effects == []
  {
    var s0 := State(loaded.GetOr([]), enable, None, map[], 0, config, []);
    assert Valid(s0);
    var s1 := ScheduleTasks(s0, firstPull);
    if enable {
      ArmPushOnce(s0);
      ScheduleSyncArms(Arm(s0, PushOnce), firstPull);
    }
    assert ChainCount(s1) == (if enable then 1 else 0);
    ScheduleSyncArms(s1.(syncTask := None), secondPull);
  }

  /** Hence unticking the box right after a start with sync on leaves a
      pull chain running: cancellation reaches only the stored handle. */
  lemma DisableAfterStartupLeavesChain(loaded: Option<Table>, config: Option<Config>,
                                       firstPull: Option<seq<RemoteRecord>>, secondPull: Option<seq<RemoteRecord>>,
                                       configOk: bool, defaults: Config,
                                       fetched: Option<seq<RemoteRecord>>, pushOk: bool)
    ensures var s := Startup(true, loaded, config, firstPull, secondPull);
      ChainCount(ToggleSync(s, false, configOk, defaults, fetched, pushOk)) == 1
  {
    var s := Startup(true, loaded, config, firstPull, secondPull);
    StartupChains(true, loaded, config, firstPull, secondPull);
    DisableCancelsStoredChain(s, configOk, defaults, fetched, pushOk);
  }

  /** Firing a timer keeps the invariant and the number of pull chains:
      a pull tick re-arms itself, a push leaves no chain behind. */
  lemma FireKeepsChains(s: State, h: nat, fetched: Option<seq<RemoteRecord>>, pushOk: bool)
    requires Valid(s)
    ensures Valid(FireTimer(s, h, fetched, pushOk))
    ensures ChainCount(FireTimer(s, h, fetched, pushOk)) == ChainCount(s)
    ensures FireTimer(s, h, fetched, pushOk).syncToGoogle == s.syncToGoogle
  {
    if h in s.timers {
      var s1 := s.(timers := s.timers - {h});
      if s.timers[h].action == PullTick {
        assert PullChains(s1.timers) == PullChains(s.timers) - {h};
        ScheduleSyncArms(s1.(syncTask := None), fetched);
        assert ScheduleSync(s1, fetched) == ScheduleSync(s1.(syncTask := None), fetched).(syncTask := Some(s.nextHandle)).(rows := ScheduleSync(s1, fetched).rows);
      } else {
        assert PullChains(s1.timers) == PullChains(s.timers);
      }
    }
  }

  /** While sync is off, a timer firing changes neither the table nor the
      effects: no pull and no push. */
  lemma DisabledFireIsInert(s: State, h: nat, fetched: Option<seq<RemoteRecord>>, pushOk: bool)
    requires !s.syncToGoogle
    ensures FireTimer(s, h, fetched, pushOk).rows == s.rows
    ensures FireTimer(s, h, fetched, pushOk).effects == s.effects
    ensures !FireTimer(s, h, fetched, pushOk).syncToGoogle
  {
  }

  /** After sync is switched off, however many timers fire, the table and
      the effects stay as they were and the pull chains keep their number. */
  lemma {:induction false} DisabledRunIsInert(s: State, ticks: seq<Tick>)
    requires Valid(s) && !s.syncToGoogle
    ensures Run(s, ticks).rows == s.rows && Run(s, ticks).effects == s.effects
    ensures !Run(s, ticks).syncToGoogle && ChainCount(Run(s, ticks)) == ChainCount(s)
    decreases |ticks|
  {
    if ticks != [] {
      var s1 := FireTimer(s, ticks[0].handle, ticks[0].fetched, ticks[0].pushOk);
      DisabledFireIsInert(s, ticks[0].handle, ticks[0].fetched, ticks[0].pushOk);
      FireKeepsChains(s, ticks[0].handle, ticks[0].fetched, ticks[0].pushOk);
      DisabledRunIsInert(s1, ticks[1..]);
    }
  }

  /** A chain never stops by itself: with no toggling, the number of pull
      chains is the same after any run of timer firings. */
  lemma {:induction false} RunKeepsChains(s: State, ticks: seq<Tick>)
    requires Valid(s)
    ensures Valid(Run(s, ticks)) && ChainCount(Run(s, ticks)) == ChainCount(s)
    decreases |ticks|
  {
    if ticks != [] {
      var s1 := FireTimer(s, ticks[0].handle, ticks[0].fetched, ticks[0].pushOk);
      FireKeepsChains(s, ticks[0].handle, ticks[0].fetched, ticks[0].pushOk);
      RunKeepsChains(s1, ticks[1..]);
    }
  }

  // ---------------------------------------------------------------------
  // The end-to-end scenario

  /** A field typed with no whitespace at either end, which Add stores as is. */
  predicate Trimmed(v: string) {
    v != [] && !IsSpace(v[0]) && !IsSpace(v[|v| - 1])
  }

  /** Start empty with sync off; add a first application (say Acme,
      Engineer), then a second (Globex, PM); set row 1 to Interview; delete
      row 0. One row remains, the second application, renumbered to id 0,
      with its new status. */
  lemma Scenario(company1: string, position1: string, company2: string, position2: string, today: string)
    requires Trimmed(company1) && Trimmed(position1) && Trimmed(company2) && Trimmed(position2)
    ensures
      var s0 := State([], false, None, map[], 0, None, []);
      var s1 := SaveApplication(s0, company1, position1, "", today, true, true);
      var s2 := SaveApplication(s1, company2, position2, "", today, true, true);
      var s3 := SaveStatus(s2, 1, Interview, true, true);
      var s4 := DeleteRows(s3, [0], true, true);
      s4.rows == [Record(company2, position2, "", today, "Interview")]
  {
    var s2 := ScenarioAdds(company1, position1, company2, position2, today);
    var s3 := SaveStatus(s2, 1, Interview, true, true);
    ScenarioStatus(s2, Record(company1, position1, "", today, "Submitted"), Record(company2, position2, "", today, "Submitted"));
    DeleteRowsOne(s3, 0, true, true);
  }

  /** The status step of the scenario. */
  lemma ScenarioStatus(s2: State, first: Record, second: Record)
    requires s2.rows == [first, second]
    ensures SaveStatus(s2, 1, Interview, true, true).rows[1..] == [second.(status := "Interview")]
    ensures |SaveStatus(s2, 1, Interview, true, true).rows| == 2
  {
    SaveStatusSetsRow(s2, 1, Interview, true, true);
  }

  /** The two additions of the scenario. */
  lemma ScenarioAdds(company1: string, position1: string, company2: string, position2: string, today: string)
    returns (s2: State)
    requires Trimmed(company1) && Trimmed(position1) && Trimmed(company2) && Trimmed(position2)
    ensures s2 == SaveApplication(SaveApplication(State([], false, None, map[], 0, None, []),
                                                  company1, position1, "", today, true, true),
                                  company2, position2, "", today, true, true)
    ensures s2.rows == [Record(company1, position1, "", today, "Submitted"),
                        Record(company2, position2, "", today, "Submitted")]
  {
    var s0 := State([], false, None, map[], 0, None, []);
    AddTrimmed(s0, company1, position1, today);
    var s1 := SaveApplication(s0, company1, position1, "", today, true, true);
    AddTrimmed(s1, company2, position2, today);
    s2 := SaveApplication(s1, company2, position2, "", today, true, true);
  }

  /** Adding fields that need no stripping stores them as typed. */
  lemma AddTrimmed(s: State, company: string, position: string, today: string)
    requires Trimmed(company) && Trimmed(position)
    ensures SaveApplication(s, company, position, "", today, true, true).rows
         == s.rows + [Record(company, position, "", today, "Submitted")]
  {
    StripUntouched(company);
    StripUntouched(position);
    SaveApplicationAppends(s, company, position, "", today, true, true);
  }
}
