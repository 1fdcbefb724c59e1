# EDDDLLManager, modelled in Dafny

`EDDDLLManager` is the plugin manager of EliteDangerousCore. It does four things:

- It loads every `*.dll` of a folder through `EDDDLLCaller`.
- It keeps a plugin only when the plugin's file name is on a comma-separated allow list (or the list is `All`) and the plugin's `Init` succeeds.
- It returns three comma-joined reports: loaded, failed and not allowed.
- It sends journal entries, refresh requests and commands to every plugin, or to one plugin looked up by name case-insensitively. For commands it decodes each plugin's answer into a `(success, name, message)` triple.

Modules:

- `Wrappers` and `Text` (`text.dfy`) hold the option type and the string helpers the manager uses: case-insensitive equality, `String.Split` with its inverse `Join`, the `AppendPrePad` fold, `HasChars` and `Mid`.
- `Plugin` (`plugin.dfy`) holds a plugin handle and the calls the manager makes across the native boundary.
  - Each handle is an oracle whose answers are fixed in advance: its name, its version string, and its `Init` / `ActionJournalEntry` / `ActionCommand` entry points as functions.
- `DllManager` (`manager.dfy`) holds the class `EDDDLLManager`.
  - `DLLs` is a sequence field that its methods update.
  - A ghost field `Calls` logs every native call made, in order: load attempts, `Init` calls and per-plugin dispatches.
  - `Load` is proved to compute `Scan`, a function over the candidate files.
- `LoadProperties` (`load_properties.dfy`) proves what `Scan` guarantees.

## Model

| member | source | states |
|---|---|---|
| DllManager.EDDDLLManager.constructor | EliteDangerous/DLL/EDDDLLManager.cs:28 | A new manager has no plugins (Count is 0) and has made no calls. |
| DllManager.EDDDLLManager.Count | EliteDangerous/DLL/EDDDLLManager.cs:27 | The number of plugins in DLLs. It is 0 exactly when FindCaller finds no plugin for any name. |
| DllManager.EDDDLLManager.Load | EliteDangerous/DLL/EDDDLLManager.cs:32-77 | When the folder is missing, Load returns ("", "DLL Folder does not exist", "") and changes neither the plugin list nor the call log. Otherwise the three reports are the comma-joined names that `Scan` assigns to loaded, failed and not allowed. DLLs is extended by exactly the accepted plugins. The call log is extended by exactly the calls `Scan` records, in candidate order. |
| DllManager.EDDDLLManager.UnLoad | EliteDangerous/DLL/EDDDLLManager.cs:79-87 | Every listed plugin is unloaded once, in list order, and then the list is empty: Count is 0 and FindCaller finds nothing for any name. With no plugins, no call is made. |
| DllManager.EDDDLLManager.Refresh | EliteDangerous/DLL/EDDDLLManager.cs:89-95 | Every plugin receives the same (cmdr, je) exactly once, in list order; the list is unchanged. |
| DllManager.EDDDLLManager.NewJournalEntry | EliteDangerous/DLL/EDDDLLManager.cs:97-103 | Every plugin receives the entry exactly once, in list order; the list is unchanged. |
| DllManager.EDDDLLManager.FindCaller | EliteDangerous/DLL/EDDDLLManager.cs:105-108 | Returns None exactly when no plugin's Name equals the name ignoring case. Otherwise it returns the first plugin in the list whose Name matches. |
| DllManager.FirstMatch | EliteDangerous/DLL/EDDDLLManager.cs:107 | List.Find's index: None exactly when nothing matches; otherwise a matching index with no match before it. |
| DllManager.EDDDLLManager.ActionJournalEntry | EliteDangerous/DLL/EDDDLLManager.cs:110-125 | For "All" in any case: every plugin gets the entry and the result is (true, true), whatever the plugins answered. For an unknown name: (false, false) and no call. For a known name: only the first matching plugin is called and the result is (true, its answer). |
| DllManager.EDDDLLManager.ActionCommand | EliteDangerous/DLL/EDDDLLManager.cs:127-148 | For "All": one result per plugin, in list order, each that plugin's AC result and carrying its name. For an unknown name: exactly [(false, dllname, "Cannot find DLL ")] and no call. For a known name: exactly [AC of the first matching plugin]. |
| DllManager.AC | EliteDangerous/DLL/EDDDLLManager.cs:150-159 | The result always names the plugin. A null answer gives (false, "DLL does not implement ActionCommand"). Otherwise success holds iff the answer is non-empty and starts with '+'. The message is the answer without its first character, or "" for an empty answer. |
| DllManager.ACRoundTrip | EliteDangerous/DLL/EDDDLLManager.cs:155-158 | An answer made of a marker character and a message decodes to exactly that message, with success exactly when the marker is '+'. |
| DllManager.ContainsIgnoreCase | EliteDangerous/DLL/EDDDLLManager.cs:55 | True exactly when some element of the list equals the name ignoring case. |
| DllManager.AllowedMeaning | EliteDangerous/DLL/EDDDLLManager.cs:44-55 | The allow test (`Allowed`): "All" in any letter case admits every file. Otherwise a file is admitted exactly when one of the comma-separated fields equals its file name ignoring case. An allow list without a comma admits only its own name (or everything, if it is "All"). |
| Text.Split | EliteDangerous/DLL/EDDDLLManager.cs:44 | String.Split(','): one field more than there are commas, and no field contains a comma. Its inverse is Join (JoinSplit, SplitJoin). |
| LoadProperties.AllowListOfNames | EliteDangerous/DLL/EDDDLLManager.cs:44-55 | Take an allow list written as comma-free names joined by commas, other than "All". A file is allowed exactly when its file name equals one of those names, ignoring case. |
| LoadProperties.ScanAppend | EliteDangerous/DLL/EDDDLLManager.cs:46-73 | Candidates are handled independently and in order. The results for a + b are those for a followed by those for b. |
| LoadProperties.DroppedCandidateLeavesNoTrace | EliteDangerous/DLL/EDDDLLManager.cs:53 | A candidate whose native load fails changes none of the three reports and adds nothing to DLLs. It gets no Init call; only the load attempt is logged. |
| LoadProperties.ScanCounts | EliteDangerous/DLL/EDDDLLManager.cs:53-71 | Every loadable candidate lands in exactly one report. Each allowed one goes to loaded or failed; each other one goes to not allowed. The kept plugins are the loaded report's names, in the same order. If every loaded and allowed plugin initialises, the failed report is empty. |
| LoadProperties.ScanAcceptsExactly | EliteDangerous/DLL/EDDDLLManager.cs:55-59 | The plugins added to DLLs are exactly those candidates that load, are allowed and initialise, in candidate order. |
| LoadProperties.NoInitWithoutAllow | EliteDangerous/DLL/EDDDLLManager.cs:53-57 | Every logged Init names a file that the allow list admits and that some candidate which loaded carries. |
| LoadProperties.RejectedCandidateGetsNoInit | EliteDangerous/DLL/EDDDLLManager.cs:53-57 | Per candidate, whatever the other file names: a candidate that fails to load or that the allow list rejects contributes only its load attempt to the call log, at its own position, and is never passed to Init. |
| LoadProperties.SingleOutcome | EliteDangerous/DLL/EDDDLLManager.cs:46-73 | One candidate's contribution (`Single`). The load is always attempted first. A file that does not load adds nothing else. A file that loads adds exactly one entry: not allowed (its Name) when the allow list rejects it, otherwise an Init call followed by loaded (its Name, and the plugin is kept) or failed (its FailedEntry). |
| LoadProperties.ScanShape | EliteDangerous/DLL/EDDDLLManager.cs:46-73 | Totals over the whole folder (`Scan`): the three reports together hold at most one entry per candidate, and the call log holds between one and two calls per candidate. The plugins kept are exactly those named in the loaded report, in the same order. |
| LoadProperties.CandidateCalls | EliteDangerous/DLL/EDDDLLManager.cs:46-57 | Per candidate: its calls (`Single`) appear in the log at its own position, between those of the candidates before and after it, and start with its load attempt. With SingleOutcome, each candidate is attempted once and makes at most two calls. |
| DllManager.FailedEntry | EliteDangerous/DLL/EDDDLLManager.cs:64-65 | The failed entry starts with the plugin's Name. It is only the Name when the Version has no characters. Otherwise the Name is followed by ": " and then the Version without its first character: putting that character back gives the Version. |
| Text.ReportReadsBack | EliteDangerous/DLL/EDDDLLManager.cs:60-70 | A report built with AppendPrePad from names that are non-empty and comma-free splits back at the commas into exactly those names. The report is empty exactly when the list is empty. |
| Text.SplitJoin | EliteDangerous/DLL/EDDDLLManager.cs:44 | Splitting a comma-join of comma-free fields gives back the fields. |
| Text.JoinSplit | EliteDangerous/DLL/EDDDLLManager.cs:44 | Joining the fields of String.Split with the separator gives back the string. |

## Left out

- Native loading and the plugin interface. `EDDDLLCaller.Load`, `Init`, `UnLoad`, `Refresh`, `NewJournalEntry`, `ActionJournalEntry` and `ActionCommand` are foreign calls. Each candidate's load outcome is an input (`Candidate.loaded`). A loaded plugin is a record whose entry points are fixed functions, so the model does not capture plugins that keep state between calls or answer differently on a second call.
- Effects of the notification calls. `UnLoad`, `Refresh` and `NewJournalEntry` are modelled only by the calls they make (the ghost `Calls` log), since their results are discarded.
- Filesystem access. `Directory.Exists` becomes the `directoryExists` flag. The enumeration of `*.dll` files, `Path.GetFileNameWithoutExtension` and the ordering by `LastWriteTime` happen outside the model: the candidates arrive as a sequence, already in that order, each with its file name.
- Case folding. `InvariantCultureIgnoreCase` is modelled as ASCII lower-casing.
- Helper behaviour assumed, because `AppendPrePad`, `HasChars` and `Mid` are extension methods not shown here:
  - `AppendPrePad` prepends the separator only when the accumulator is non-empty. It appends even an empty item.
  - `HasChars` means not null and not empty.
  - `Mid(1)` is the suffix from index 1, or "" for a shorter string.
- Null arguments. `directory`, `allowed`, `dllname`, `name` and the plugin's `Name` are taken to be non-null. Only a plugin's `Version` and its `ActionCommand` answer may be null, modelled as `None`.
- Opaque payloads. The callback table and the journal entry are type parameters that are passed through unchanged. `ourversion` and `dllfolder` are passed to `Init` unchanged.
- Exceptions a plugin might throw, and crashes or hangs inside plugins, are outside what the manager handles and are not modelled.
