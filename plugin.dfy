/*
 * A plugin handle (EDDDLLCaller) seen from the manager: an oracle whose
 * answers to the native calls are fixed in advance, and the record of the
 * calls the manager makes into plugins.
 */

module Plugin {
  import opened Wrappers

  /**
   * What one successfully loaded plugin answers. `name` is the Name property
   * set by the native load; `version` is the Version property read after a
   * failed Init (None for null); the three functions are the plugin's Init,
   * ActionJournalEntry and ActionCommand entry points. CB is the callback
   * table and J the journal entry, both passed through unchanged.
   */
  datatype Caller<!CB, !J> = Caller(
    name: string,
    version: Option<string>,
    init: (string, string, CB) -> bool,
    actionJournalEntry: J -> bool,
    actionCommand: (string, seq<string>) -> Option<string>)

  /**
   * One *.dll file of the folder: its file name without extension, and the
   * handle that caller.Load produces, or None when the native load (or the
   * lookup of EDDInitialise) fails.
   */
  datatype Candidate<!CB, !J> = Candidate(fileName: string, loaded: Option<Caller<CB, J>>)

  /** A call the manager makes on a plugin that is already in its list. */
  datatype Request<J> =
    | Unload
    | Refresh(cmdr: string, je: J)
    | NewJournalEntry(je: J)
    | ActionJournalEntry(je: J)
    | ActionCommand(cmd: string, paras: seq<string>)

  /** One call across the native boundary, as recorded in the manager's call log. */
  datatype Call<!CB, !J> =
    | NativeLoad(file: string)
    | Init(file: string, ourversion: string, dllfolder: string, callbacks: CB)
    | Dispatch(plugin: Caller<CB, J>, request: Request<J>)
}
