/** The key-wise merge `update_config` performs on the JSON settings file. */
module ConfigStore {
  import opened Wrappers

  datatype ConfigValue = Flag(b: bool) | Str(s: string)

  type Config = map<string, ConfigValue>

  /** The key toggling sync writes. */
  const EnableGoogleSync: string := "ENABLE_GOOGLE_SYNC"

  /** The settings after `config.update(kwargs)`: the stored settings, or a
      copy of the defaults when the file does not exist, with every updated
      key overwritten and every other key kept. */
  function UpdateConfig(stored: Option<Config>, defaults: Config, updates: Config): (r: Config)
    ensures r.Keys == stored.GetOr(defaults).Keys + updates.Keys
    ensures forall k :: k in updates ==> r[k] == updates[k]
    ensures forall k :: k in stored.GetOr(defaults) && k !in updates ==> r[k] == stored.GetOr(defaults)[k]
  {
    stored.GetOr(defaults) + updates
  }

  /** Writing the same settings twice is writing them once. */
  lemma UpdateConfigIdempotent(stored: Option<Config>, defaults: Config, updates: Config)
    ensures UpdateConfig(Some(UpdateConfig(stored, defaults, updates)), defaults, updates)
         == UpdateConfig(stored, defaults, updates)
  {
  }

  /** Two successive updates are one update with the later values winning. */
  lemma UpdateConfigSequential(stored: Option<Config>, defaults: Config, first: Config, second: Config)
    ensures UpdateConfig(Some(UpdateConfig(stored, defaults, first)), defaults, second)
         == UpdateConfig(stored, defaults, first + second)
  {
    var a := UpdateConfig(Some(UpdateConfig(stored, defaults, first)), defaults, second);
    var b := UpdateConfig(stored, defaults, first + second);
    assert a.Keys == b.Keys;
    assert forall k :: k in a ==> a[k] == b[k];
  }
}
