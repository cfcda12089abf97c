/** The per-site state file of `src/common/state.js`: one JSON object mapping a scraper's
    name to the state it last saved. Reading never fails (a missing or unreadable file
    reads as the empty object); every write rewrites the whole file. */
module StateStore {
  import opened Js

  /** What a scraper saves after a run: the watermark id (`undefined` when the block
      had none) and the time of the run, an ISO string supplied by the clock. */
  datatype State = State(lastId: Option<string>, lastRun: string)

  /** The state file as the file system holds it. Valid JSON that is not an object (`null`,
      an array, a number, string or boolean) is not represented. */
  datatype StateFile =
    | Missing
    | Unreadable                          // unreadable or not valid JSON
    | Stored(entries: map<string, State>)

  /** `readStateFile`: the parsed object, or the empty object on any failure. */
  function Load(f: StateFile): (m: map<string, State>)
    ensures f.Stored? ==> m == f.entries
    ensures !f.Stored? ==> m == map[]
  {
    match f
    case Stored(entries) => entries
    case _ => map[]
  }

  /** `getState(name)`: the saved state, or `null` when the name has none. */
  function GetState(f: StateFile, name: string): (r: Option<State>)
    ensures r.Some? <==> f.Stored? && name in f.entries
    ensures r.Some? ==> r.value == f.entries[name]
  {
    var all := Load(f);
    if name in all then Some(all[name]) else None
  }

  /** `setState(name, s)`: re-reads the file, replaces one entry and writes it all back.
      The written state reads back, and every other name reads as before. */
  function SetState(f: StateFile, name: string, s: State): (f': StateFile)
    ensures f'.Stored?
    ensures GetState(f', name) == Some(s)
    ensures forall other :: other != name ==> GetState(f', other) == GetState(f, other)
  {
    Stored(Load(f)[name := s])
  }

  /** `clearState(name)`: re-reads the file, deletes one entry and writes it all back.
      The name reads as `null` afterwards, and every other name reads as before. */
  function ClearState(f: StateFile, name: string): (f': StateFile)
    ensures f'.Stored?
    ensures GetState(f', name) == None
    ensures forall other :: other != name ==> GetState(f', other) == GetState(f, other)
  {
    Stored(Load(f) - {name})
  }

  /** With no file, or an unreadable one, every name reads as `null`. */
  lemma UnreadableIsEmpty(f: StateFile, name: string)
    requires !f.Stored?
    ensures GetState(f, name) == None
  {
  }

  /** The last write wins. */
  lemma SetStateTwice(f: StateFile, name: string, a: State, b: State)
    ensures SetState(SetState(f, name, a), name, b) == SetState(f, name, b)
  {
    assert Load(f)[name := a][name := b] == Load(f)[name := b];
  }

  /** Clearing is idempotent. */
  lemma ClearStateTwice(f: StateFile, name: string)
    ensures ClearState(ClearState(f, name), name) == ClearState(f, name)
  {
    assert Load(f) - {name} - {name} == Load(f) - {name};
  }

  /** Writing to an unreadable file starts from the empty object, so it keeps only the
      entry just written. */
  lemma SetStateOverUnreadable(name: string, s: State)
    ensures SetState(Unreadable, name, s) == Stored(map[name := s])
  {
  }
}
