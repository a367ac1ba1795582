/** Values shared by every part of the model: peers, configurations, log entries and log ids. */
module Types {

  /** A peer is its address and index; the role does not take part in equality. */
  type PeerId = nat

  datatype Option<+T> = None | Some(value: T)

  /** `oldPeers` is empty when the configuration is stable and holds the outgoing peers when it is joint. */
  datatype Config = Config(peers: set<PeerId>, oldPeers: set<PeerId>) {
    predicate Stable() {
      oldPeers == {}
    }

    predicate Contains(p: PeerId) {
      p in peers || p in oldPeers
    }
  }

  datatype Payload = Data(value: int) | Conf(conf: Config)

  datatype Entry = Entry(term: nat, payload: Payload)

  /** Position `i` holds the entry of log index `i + 1`, so the prefix of length `k` ends at index `k`. */
  type Log = seq<Entry>

  /** Log ids compare by term first and by index second. */
  datatype LogId = LogId(index: nat, term: nat) {
    predicate AtLeast(that: LogId) {
      if term == that.term then index >= that.index else term > that.term
    }
  }

  // the error numbers of the system that calls return
  const EINVAL := 22
  const ERANGE := 34

  function LastTerm(log: Log): nat {
    if log == [] then 0 else log[|log| - 1].term
  }

  function LastId(log: Log): LogId {
    LogId(|log|, LastTerm(log))
  }

  /** The term at an index, 0 when the log has no such index. */
  function TermAt(log: Log, index: nat): nat {
    if 0 < index <= |log| then log[index - 1].term else 0
  }

  /** The configuration in force after `log`: its last configuration entry, or the initial one. */
  function ConfOf(initial: Config, log: Log): Config {
    if log == [] then initial
    else
      var last := log[|log| - 1];
      if last.payload.Conf? then last.payload.conf else ConfOf(initial, log[..|log| - 1])
  }

  function Max(a: nat, b: nat): nat {
    if a < b then b else a
  }

  function Min(a: nat, b: nat): nat {
    if a < b then a else b
  }
}
