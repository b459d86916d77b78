/** The `AppTrack` window's record store and sync engine as an object whose
    methods update its fields in place, step by step as the source does.
    Each method is proved to move the object from `old(State())` to the
    state the matching function of module Engine describes, so every lemma
    proved there holds of the object too. */
module AppTrackModel {
  import opened Wrappers
  import opened Text
  import opened Records
  import opened ConfigStore
  import Engine

  class AppTrack {
    var rows: Table                       // applications_df
    var syncToGoogle: bool                // sync_to_google
    var syncTask: Option<nat>             // sync_task
    var timers: map<nat, Engine.Timer>    // pending `after` callbacks, by handle
    var nextHandle: nat                   // handle the next `after` returns
    var config: Option<Config>            // the settings file, None while absent
    var effects: seq<Engine.Effect>       // successful saves and pushes, in order

    function State(): Engine.State
      reads this
    {
      Engine.State(rows, syncToGoogle, syncTask, timers, nextHandle, config, effects)
    }

    predicate Valid()
      reads this
    {
      Engine.Valid(State())
    }

    /** `__init__`, from the point where the sync flag is read from the
        settings: load the table, run `schedule_tasks`, clear `sync_task`
        and start one more pull chain. */
    constructor(enable: bool, loaded: Option<Table>, stored: Option<Config>,
                firstPull: Option<seq<RemoteRecord>>, secondPull: Option<seq<RemoteRecord>>)
      ensures Valid()
      ensures State() == Engine.Startup(enable, loaded, stored, firstPull, secondPull)
    {
      rows := loaded.GetOr([]);
      syncToGoogle := enable;
      syncTask := None;
      timers := map[];
      nextHandle := 0;
      config := stored;
      effects := [];
      new;
      Engine.StartupChains(enable, loaded, stored, firstPull, secondPull);
      ScheduleTasks(firstPull);
      syncTask := None;
      ScheduleSync(secondPull);
    }

    // -------------------------------------------------------------------
    // Outside effects

    /** `save_applications_to_excel(self.applications_df)`; `ok` is false
        when the write raises. */
    method SaveToExcel(ok: bool)
      modifies this
      ensures State() == Engine.SaveLocally(old(State()), ok)
    {
      if ok {
        effects := effects + [Engine.SavedLocally(rows)];
      }
    }

    /** `write_to_google_sheets(self.applications_df)` under the caller's
        `if self.sync_to_google`, its failure caught. */
    method SyncToGoogleSheets(pushOk: bool)
      modifies this
      ensures State() == Engine.SyncToGoogleSheets(old(State()), pushOk)
    {
      if !syncToGoogle {
        return;
      }
      if pushOk {
        effects := effects + [Engine.PushedRemote(rows)];
      }
    }

    // -------------------------------------------------------------------
    // Table operations

    /** `save_application`. */
    method SaveApplication(company: string, position: string, url: string, today: string,
                           saveOk: bool, pushOk: bool)
      requires Valid()
      modifies this
      ensures Valid()
      ensures State() == Engine.SaveApplication(old(State()), company, position, url, today, saveOk, pushOk)
    {
      var c, p, u := Strip(company), Strip(position), Strip(url);
      if c == [] || p == [] {
        return;
      }
      rows := rows + [Record(c, p, u, today, StatusName(Submitted))];
      AddAppends(old(rows), company, position, url, today);
      if !saveOk {
        return;
      }
      SaveToExcel(true);
      SyncToGoogleSheets(pushOk);
    }

    /** `delete_rows`: sort the ids descending, drop each one that is still
        an index label, reset the index, push, then save. */
    method DeleteRows(ids: seq<int>, pushOk: bool, saveOk: bool)
      requires Valid()
      modifies this
      ensures Valid()
      ensures State() == Engine.DeleteRows(old(State()), ids, pushOk, saveOk)
    {
      if ids == [] {
        return;
      }
      var order := SortDescending(ids);
      SortDescendingSameIds(ids);
      rows := DropThenResetIndex(rows, order);
      SyncToGoogleSheets(pushOk);
      SaveToExcel(saveOk);
    }

    /** `save_edit`: `entry` is the open editor's text, `None` when there
        is no editor. A failed save raises before the push. */
    method SaveEdit(id: nat, c: Column, entry: Option<string>, saveOk: bool, pushOk: bool)
      requires Valid()
      modifies this
      ensures Valid()
      ensures State() == Engine.SaveEdit(old(State()), id, c, entry, saveOk, pushOk)
    {
      if entry.None? {
        return;
      }
      rows := SetCell(rows, id, c, entry.value);
      if !saveOk {
        return;
      }
      SaveToExcel(true);
      SyncToGoogleSheets(pushOk);
    }

    /** `save_direct_edit`: write the cell, then save; no push. */
    method SaveDirectEdit(id: nat, c: Column, v: string, saveOk: bool)
      requires Valid()
      modifies this
      ensures Valid()
      ensures State() == Engine.SaveDirectEdit(old(State()), id, c, v, saveOk)
    {
      rows := SetCell(rows, id, c, v);
      SaveToExcel(saveOk);
    }

    /** `save_status`: a failed save is caught, and the push still runs. */
    method SaveStatus(id: nat, choice: StatusChoice, saveOk: bool, pushOk: bool)
      requires Valid()
      modifies this
      ensures Valid()
      ensures State() == Engine.SaveStatus(old(State()), id, choice, saveOk, pushOk)
    {
      rows := SetCell(rows, id, Status, StatusName(choice));
      SaveToExcel(saveOk);
      SyncToGoogleSheets(pushOk);
    }

    /** `sync_from_google_sheets`; `fetched` is `None` when the read raised. */
    method SyncFromGoogleSheets(fetched: Option<seq<RemoteRecord>>)
      modifies this
      ensures State() == Engine.SyncFromGoogleSheets(old(State()), fetched)
    {
      if !syncToGoogle {
        return;
      }
      if fetched.None? {
        return;
      }
      var sheet := FillAll(fetched.value);
      if |sheet| > 0 && sheet != rows {
        rows := sheet;
      }
    }

    // -------------------------------------------------------------------
    // Timers and the sync flag

    /** `self.after(60000, action)`: queue a timer and return its handle. */
    method After(action: Engine.Callback) returns (h: nat)
      modifies this
      ensures h == old(nextHandle)
      ensures State() == Engine.Arm(old(State()), action)
    {
      h := nextHandle;
      timers := timers[h := Engine.Timer(Engine.SyncIntervalMs, action)];
      nextHandle := nextHandle + 1;
    }

    /** `schedule_sync`. */
    method ScheduleSync(fetched: Option<seq<RemoteRecord>>)
      modifies this
      ensures State() == Engine.ScheduleSync(old(State()), fetched)
    {
      var h := After(Engine.PullTick);
      syncTask := Some(h);
      if syncToGoogle {
        SyncFromGoogleSheets(fetched);
      }
    }

    /** `schedule_tasks`. */
    method ScheduleTasks(fetched: Option<seq<RemoteRecord>>)
      modifies this
      ensures State() == Engine.ScheduleTasks(old(State()), fetched)
    {
      if syncToGoogle {
        var _ := After(Engine.PushOnce);
        ScheduleSync(fetched);
      }
    }

    /** `update_config(**updates)`; `ok` is false when the file could not
        be read or written. */
    method UpdateConfig(updates: Config, ok: bool, defaults: Config)
      modifies this
      ensures State() == Engine.UpdateConfigFile(old(State()), updates, ok, defaults)
    {
      if ok {
        config := Some(ConfigStore.UpdateConfig(config, defaults, updates));
      }
    }

    /** `toggle_sync`, with `enable` the new check-box value. */
    method ToggleSync(enable: bool, configOk: bool, defaults: Config,
                      fetched: Option<seq<RemoteRecord>>, pushOk: bool)
      requires Valid()
      modifies this
      ensures Valid()
      ensures State() == Engine.ToggleSync(old(State()), enable, configOk, defaults, fetched, pushOk)
    {
      if enable {
        Engine.EnableArmsAndPushes(State(), configOk, defaults, fetched, pushOk);
      } else {
        Engine.DisableCancelsStoredChain(State(), configOk, defaults, fetched, pushOk);
      }
      syncToGoogle := enable;
      UpdateConfig(map[EnableGoogleSync := Flag(enable)], configOk, defaults);
      if !syncToGoogle && syncTask.Some? {
        timers := timers - {syncTask.value};
        syncTask := None;
      }
      if syncToGoogle {
        ScheduleSync(fetched);
      }
      if syncToGoogle {
        SyncToGoogleSheets(pushOk);
      }
    }

    /** The event loop running pending timer `h`. */
    method FireTimer(h: nat, fetched: Option<seq<RemoteRecord>>, pushOk: bool)
      requires Valid()
      modifies this
      ensures Valid()
      ensures State() == Engine.FireTimer(old(State()), h, fetched, pushOk)
    {
      Engine.FireKeepsChains(State(), h, fetched, pushOk);
      if h !in timers {
        return;
      }
      var action := timers[h].action;
      timers := timers - {h};
      match action
      case PullTick => ScheduleSync(fetched);
      case PushOnce => SyncToGoogleSheets(pushOk);
    }
  }

  /** The loop of `delete_rows`: drop every id in `order` that is still an
      index label of the frame, then `reset_index(drop=True)`. The result is
      the table without the rows whose ids are listed, renumbered. */
  method DropThenResetIndex(t: Table, order: seq<int>) returns (kept: Table)
    ensures kept == Delete(t, set i | i in order)
    ensures |kept| == |t| - |PresentIds(|t|, set i | i in order)|
  {
    var frame := Labelled(t);
    ghost var dropped: set<int> := {};
    DropNoLabels(Labelled(t));
    var k := 0;
    while k < |order|
      invariant 0 <= k <= |order|
      invariant forall i :: i in dropped <==> i in order[..k]
      invariant frame == DropLabels(Labelled(t), dropped)
    {
      var x := order[k];
      DropLabelsTwice(Labelled(t), dropped, {x});
      if HasLabel(frame, x) {
        frame := DropLabels(frame, {x});
      } else {
        DropAbsentLabel(frame, x);
      }
      dropped := dropped + {x};
      assert order[..k + 1] == order[..k] + [x];
      k := k + 1;
    }
    assert order[..k] == order;
    assert forall i :: i in dropped <==> i in order;
    assert dropped == set i | i in order;
    DropThenReset(t, dropped);
    kept := Values(frame);
    DeleteCount(t, dropped);
  }
}
