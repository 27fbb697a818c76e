# Retention engine for old files — a Dafny model

The repository is a pair of maintenance scripts, `limpieza.py` and its Python 2
variant `limpieza_2.7.py`. They delete files older than a configured number of
days, optionally restricted by a name mask, under routes reached in one of four
ways:

- on the local disk, with an `os.walk` loop;
- over SFTP, with a recursive `listdir_attr` walk;
- over FTP, with a recursive walk over Unix-style `LIST` lines and `MDTM` times;
- through an SSH shell, with `ls` / `find` / `rm -f` commands and an optional
  `sudo ` prefix.

Each back end counts the files it removed and the errors it met. Per-route counts
roll up to the connection and then to the run total. Connections come from a
configuration file merged with a credentials file. The diagnosis scripts next to
the engine are modelled too:

- the argument loop of `diagnostico_acceso_2.7.py`;
- its alias/type filter, its merge and its dispatch;
- its local route check and file counters;
- both variants of `obtener_rutas_para_diagnostico` (`diagnostico_acceso.py`, which
  adds prefixes in absolute form, and `diagnostico_sftp.py`, which adds them in
  relative form).

The file systems and servers are finite trees of entries. A file carries an
integer mtime; a directory carries its children. Listing, stat, probe and delete
failures are sets of paths that fail. The set of files still present is the
mutable state every purge shrinks. The clock is a parameter `now`.

Modules, one concern each:

- `Common`, `Glob`, `TextOrder` (common.dfy): Python string helpers (`strip`,
  `split`, whitespace words, `lower`), a `*`/`?` name matcher, and the text order
  with an insertion sort used for `sorted`.
- `Rule`, `Ledger`, `Session` (rule.dfy): the per-file decision rule; the
  bookkeeping fact "only allowed files disappear and the counter says how many";
  the counters shared by the remote back ends.
- `Local` (local.dfy): `eliminar_archivos_locales`. It has specification functions
  and the class `LocalPurger`, whose methods update its counters and the present
  files.
- `Sftp` (sftp.dfy), `FtpText` and `Ftp` (ftp_text.dfy, ftp.dfy), `Commands` and
  `Ssh` (ssh.dfy): the three remote back ends. Each is a specification plus a
  session class with counter fields updated in place. In `limpieza.py` those
  fields are the back end's totals. In `limpieza_2.7.py` they are the shared
  list `contadores`, which becomes the totals only after the route loop;
  `Retention.Finish27` models what an exception before that copy returns.
- `Config` (config.dfy): `combinar_configuracion` (in-place and copying variants)
  and `verificar_dependencias`.
- `Retention` (run.dfy): `procesar_conexion` and the totals loop of
  `eliminar_archivos_antiguos`.
- `DiagArgs`, `DiagFilter`, `DiagLocal`, `DiagPaths`: the diagnosis helpers.

Each imperative operation is a method proved equal to a specification function.
The properties are proved about those functions:

- only candidate files disappear, and never a directory;
- with no failures, every candidate goes;
- each failure is counted once, at its scope;
- route reports add up to the connection totals;
- dispatch, merge and filtering follow their branches.

### Behaviour taken from the code where the repository's prose says otherwise

- A local route that does not exist, or that is a file, yields `(0, 0)`, not an
  error (limpieza.py:236 walks nothing). Unlistable local subdirectories are
  skipped silently, as `os.walk` does.
- The age rule is strict: a file goes when `mtime < now - dias*86400`. With
  `dias = 0` a file stamped exactly `now` is kept.
- SFTP treats an entry as a directory exactly when `listdir` on it succeeds. A
  directory that cannot be listed is handled as a file: mask and age are checked,
  and its removal fails with one error.
- FTP `LIST` lines with fewer than nine fields are skipped without an error.
- An `MDTM` reply refused with a 5xx code is only warned about. So is a `DELE`
  refused with a 5xx code, because it is caught by the same `error_perm` handler.
  Neither is counted.
- When a connection-level exception is raised, `close`/`quit` is not reached.
  A failing `close`/`quit` adds one error per route.
- In `limpieza_2.7.py` the SFTP and FTP back ends copy `contadores` into their
  totals only after the route loop. A malformed route entry raises before the
  copy, so they return `(0, len(rutas))` and lose what the earlier routes
  counted. `limpieza.py` keeps those counts and adds `len(rutas)` errors.
- FTP never changes back to the login directory between routes. A relative
  route is resolved against the directory the last successful `cwd` entered,
  and all its `LIST`, `MDTM` and `DELE` paths are relative to that directory.
- The `necesita_sudo` flag is honoured only by SSH.
- The SSH age cut-off is `find -mtime +dias`, which is not the strict rule above.
  The model keeps the `find` output opaque.

## Model

| member | source | states |
|---|---|---|
| Glob.LiteralMatchesOnlyItself | limpieza.py:239 | a mask without wildcards admits exactly the name equal to it |
| Glob.StarMatchesAll | limpieza.py:239 | the mask `*` admits every name |
| Glob.StarSuffixMatches | limpieza.py:239 | a mask `*suffix` admits every name ending in that suffix |
| TextOrder.LessIrreflexive | diagnostico_acceso.py:118 | the text order used by `sorted` is irreflexive |
| TextOrder.LessTransitive | diagnostico_acceso.py:118 | the text order is transitive |
| TextOrder.LessTotal | diagnostico_acceso.py:118 | two different texts are always ordered one way or the other |
| TextOrder.Insert | diagnostico_acceso.py:118 | inserting into a strictly sorted list keeps it strictly sorted, and its elements are the old ones plus the new one |
| TextOrder.SortedList | diagnostico_acceso.py:118 | `sorted(list(s))` of a set is strictly ascending and holds exactly the set's elements |
| TextOrder.DistinctLength | diagnostico_acceso.py:118 | a strictly sorted list has no duplicates, so its length is the size of its set |
| Rule.Limit | limpieza.py:230 | the cut-off is `now` itself when `dias` is 0, and strictly before `now` when `dias` is positive |
| Rule.MoreDaysFewerCandidates | limpieza.py:239-248 | raising `dias` never makes a file a candidate that was not one before |
| Rule.LaterClockMoreCandidates | limpieza.py:230 | a later reading of `time.time()` keeps every candidate of an earlier one |
| Rule.ZeroDaysIsStrict | limpieza.py:230-248 | with `dias = 0` a file stamped `now` is kept, and one stamped a second earlier goes if the mask admits it |
| Rule.NoMaskAdmitsAll | limpieza.py:239 | no mask, or an empty one, admits every name |
| Ledger.Chain | limpieza.py:249-254 | two shrink steps that each remove only allowed files, counted, compose into one |
| Session.AccountedChain | limpieza.py:447-480 | counter steps that stay within their error budgets compose, and their budgets add |
| Local.FileStepSound | limpieza.py:239-257 | one file of a listing: only a candidate may disappear, and it adds at most one to removed or errored |
| Local.FilesSound | limpieza.py:238-257 | the files of one listing: only candidates disappear, the removed count equals the number that disappeared, and removed plus errored is at most the number processed |
| Local.WalkSound | limpieza.py:236-257 | the same for the whole walk below a directory |
| Local.SubdirsSound | limpieza.py:236-237 | the same for the subdirectories of a listing |
| Local.PurgeSound | limpieza.py:218-269 | a route's purge removes only candidate files under it (never a directory), counts exactly the files removed, and counts at most one outcome per processed file |
| Local.FilesComplete | limpieza.py:243-254 | with no failures, no candidate of a listing survives |
| Local.WalkComplete | limpieza.py:236-254 | with no failures, no candidate below a directory survives |
| Local.SubdirsComplete | limpieza.py:236-237 | with no failures, no candidate of a subdirectory survives |
| Local.PurgeComplete | limpieza.py:218-269 | with no failures, the present files afterwards are exactly the present files minus the route's candidates |
| Local.LocalPurger.constructor | limpieza.py:231-233 | a purger starts with zero counters over the present files |
| Local.LocalPurger.ProcessFile | limpieza.py:239-257 | handling one listed file updates the counters and the present files as the file step specifies |
| Local.LocalPurger.WalkDir | limpieza.py:236-257 | the `os.walk` loop leaves the state the walk specifies |
| Local.LocalPurger.PurgeRoute | limpieza.py:218-269 | one call of `eliminar_archivos_locales` returns its two counters and leaves the present files as the route's purge specifies |
| Sftp.LeafSound | limpieza_2.7.py:499-518 | an entry that cannot be listed is mask-filtered and removed only when it is a candidate file; it adds at most one to either counter |
| Sftp.EntriesSound | limpieza_2.7.py:493-522 | a directory's entries: only candidate files disappear, removed equals the number that disappeared, and each entry costs at most one count |
| Sftp.WalkSound | limpieza_2.7.py:486-522 | the same for a recursive walk, including the one error of a listing that fails |
| Sftp.RoutesSound | limpieza_2.7.py:524-558 | over all routes only candidate files under them disappear, removed grows by the number that disappeared, and errors never decrease |
| Sftp.ConnectionSound | limpieza_2.7.py:456-572 | a whole SFTP connection removes only candidates and reports exactly the number removed |
| Sftp.EntriesComplete | limpieza_2.7.py:493-518 | with no failures no candidate of a listing survives |
| Sftp.WalkComplete | limpieza_2.7.py:486-522 | with no failures no candidate below a directory survives |
| Sftp.RoutesComplete | limpieza_2.7.py:524-558 | with no failures no candidate under any route survives |
| Sftp.ConnectionComplete | limpieza_2.7.py:456-572 | with paramiko, a healthy session and no failures, the files left are exactly the present ones minus the candidates |
| Sftp.ListFailureIsolated | limpieza_2.7.py:520-522 | a directory that passed the `listdir` probe but whose `listdir_attr` fails costs exactly one error, and its siblings are handled as if it were absent (an entry whose probe fails is a leaf, not an error) |
| Sftp.ReportsSum | limpieza_2.7.py:538-558 | there is one report per route, and the reports' removed and errored deltas add up to the connection's totals |
| Sftp.SftpSession.constructor | limpieza_2.7.py:484 | a session starts with the shared counters at zero |
| Sftp.SftpSession.HandleLeaf | limpieza_2.7.py:505-518 | handling a non-directory entry leaves the state the leaf step specifies |
| Sftp.SftpSession.WalkDir | limpieza_2.7.py:486-522 | the recursive walk leaves the state the walk specifies |
| Sftp.SftpSession.PurgeRoutes | limpieza_2.7.py:524-558 | the route loop leaves the specified state and returns each route's counter deltas |
| Sftp.SftpSession.PurgeConnection | limpieza_2.7.py:456-572 | `eliminar_archivos_sftp` returns the specified totals, including paramiko missing, a session that cannot be opened and a failing close, with one summary per route when the session opens and none otherwise |
| Sftp.ConnectionFailures | limpieza.py:428-522 | without paramiko the result is (0, 1) and nothing is removed; a session that cannot be opened gives one error per route; a failing close adds one error per route to the routes' own counts and changes nothing else |
| FtpText.ListName | limpieza_2.7.py:608-617 | a `LIST` line yields a name exactly when it has at least nine whitespace fields |
| FtpText.ListNameOfLine | limpieza_2.7.py:609-617 | the name is the fields from the ninth on, rejoined with single spaces |
| FtpText.SendCmd | limpieza_2.7.py:627-640 | a reply line is returned unless its class is an error, and a 5xx line raises `error_perm` |
| FtpText.Delete | limpieza_2.7.py:632-634 | `DELE` succeeds exactly on a 250 or 200 reply |
| FtpText.ParseStamp | limpieza_2.7.py:629-630 | a parsed `MDTM` time has fourteen digits and is a valid calendar date and time |
| FtpText.PadValue | limpieza_2.7.py:630 | a zero-padded field reads back as the number it was made from |
| FtpText.ParseFormat | limpieza_2.7.py:629-630 | parsing the fourteen-digit form of a valid time gives that time back |
| FtpText.ReadMdtm | limpieza_2.7.py:628-630 | only replies beginning with 213 yield a time; any other reply yields none |
| FtpText.ReadMdtmOfReply | limpieza_2.7.py:628-630 | a `213 YYYYMMDDHHMMSS` reply yields that time in seconds at the session's UTC offset |
| Ftp.FileStepSound | limpieza_2.7.py:621-640 | one file line removes at most the file itself, and only when its `MDTM` time makes it a candidate; it costs at most one count |
| Ftp.EntriesSound | limpieza_2.7.py:606-640 | a listing's lines: only candidate files disappear, never a `d` line, removed equals what disappeared, and each line costs at most one count |
| Ftp.WalkSound | limpieza_2.7.py:598-644 | the same for a recursive walk, including the one error of a failing listing |
| Ftp.RoutesSound | limpieza_2.7.py:646-678 | over all routes only candidates disappear, removed grows by the number that disappeared, and errors never decrease |
| Ftp.ConnectionSound | limpieza_2.7.py:574-690 | a whole FTP connection removes only candidates and reports exactly the number removed |
| Ftp.DeleteOkSucceeds | limpieza_2.7.py:632-634 | the standard `250` reply to `DELE` counts as a removal |
| Ftp.EntriesComplete | limpieza_2.7.py:606-640 | with no failures no candidate of a listing survives |
| Ftp.WalkComplete | limpieza_2.7.py:598-644 | with no failures no candidate below a directory survives |
| Ftp.RoutesComplete | limpieza_2.7.py:646-678 | with no failures no candidate under any route survives |
| Ftp.ConnectionComplete | limpieza_2.7.py:574-690 | with a healthy session and no failures, the files left are exactly the present ones minus the candidates |
| Ftp.MdtmRefusedNotCounted | limpieza_2.7.py:636-637 | an `MDTM` refused with 5xx changes neither the counters nor the files |
| Ftp.MdtmTransientCounted | limpieza_2.7.py:638-639 | an `MDTM` answered 4xx, or a dropped connection, adds exactly one error and nothing else |
| Ftp.MdtmStampCases | limpieza_2.7.py:628-639 | a 213 reply whose time cannot be parsed adds one error; a non-213 reply changes nothing |
| Ftp.ListFailureIsolated | limpieza_2.7.py:642-643 | a subdirectory whose listing fails costs exactly one error, and its siblings are handled as if it were absent |
| Ftp.Resolve | limpieza_2.7.py:656 | `cwd` to an absolute route enters the route itself, to the empty route stays put, and to a relative route enters a directory below the current one ending in the route |
| Ftp.CwdKnown | limpieza_2.7.py:646-656 | the session is always in its starting directory or in a directory some route's `cwd` entered |
| Ftp.RelativeFollowsPrevious | limpieza_2.7.py:646-656 | after a route whose `cwd` succeeds the session stays in that route's directory, so a relative route after it is resolved below it |
| Ftp.AbsoluteRoutesIgnoreStart | limpieza_2.7.py:646-678 | when every route is absolute, the starting directory changes neither what the routes do nor what they may delete |
| Ftp.ReportsSum | limpieza_2.7.py:658-678 | there is one report per route, and the reports' deltas add up to the connection's totals |
| Ftp.FtpSession.constructor | limpieza_2.7.py:592-596 | a session starts in the login directory with the shared counters at zero |
| Ftp.FtpSession.HandleFile | limpieza_2.7.py:621-640 | handling a file line leaves the state the file step specifies |
| Ftp.FtpSession.HandleStamp | limpieza_2.7.py:628-635 | acting on an `MDTM` outcome leaves the state the stamp step specifies |
| Ftp.FtpSession.WalkDir | limpieza_2.7.py:598-644 | the recursive walk leaves the state the walk specifies |
| Ftp.FtpSession.PurgeRoute | limpieza_2.7.py:655-675 | one route: a failing `cwd` costs one error and leaves the directory; otherwise the directory it entered is walked, the session stays there, and the report holds the counter deltas |
| Ftp.FtpSession.PurgeRoutes | limpieza_2.7.py:646-678 | the route loop leaves the specified state and working directory and returns each route's counter deltas |
| Ftp.FtpSession.PurgeConnection | limpieza_2.7.py:574-690 | `eliminar_archivos_ftp` returns the specified totals, including a session that cannot be opened and a failing `quit`, with one summary per route when the session opens and none otherwise, and leaves the session where the routes' `cwd` calls took it |
| Ftp.ConnectionFailures | limpieza.py:620-632 | a session that cannot be opened gives one error per route and removes nothing; a failing `quit` adds one error per route to the routes' own counts and changes nothing else |
| Commands.SudoPrefix | limpieza.py:317-318 | the prefix is `sudo ` exactly when the connection needs sudo, and empty otherwise |
| Commands.NameClause | limpieza.py:351-354 | the `-name` clause is empty exactly when no mask is set |
| Commands.RmRoundTrip | limpieza.py:381 | the target can be read back from the `rm -f '…'` command built for it |
| Commands.CommandsIssued | limpieza.py:343-381 | the probe, the search and the delete are each one of the three commands built on the prefix |
| Commands.IssuedHead | limpieza.py:343-381 | each of the three commands is the prefix followed by `ls`, `find` or `rm` |
| Commands.CommandsCarrySudo | limpieza.py:317-381 | each built command starts with `sudo ` exactly when sudo is needed |
| Commands.NonBlankMembers | limpieza.py:361 | the kept lines are exactly the lines that are not blank |
| Commands.TargetsMembers | limpieza.py:361 | the targets of `find` output are exactly its non-blank lines |
| Commands.BlankOutputNoTargets | limpieza.py:361 | output made only of whitespace yields no delete at all |
| Ssh.RunStatus | limpieza.py:271-298 | a command's status is 0 exactly when it completed with 0; a command that raises yields empty output and status 1 |
| Ssh.DeleteStepCount | limpieza.py:375-396 | one target issues one `rm -f` of its stripped text and adds exactly one to removed or errored |
| Ssh.DeletesCount | limpieza.py:375-396 | the targets issue exactly one `rm -f` each, in order, and removed plus errored grows by their number |
| Ssh.ProbeFailure | limpieza.py:343-349 | a route whose `ls` probe fails adds exactly one error and issues nothing else |
| Ssh.ProbeSuccess | limpieza.py:351-396 | after a good probe the route issues the search and one delete per `find` target, each counted once; a failing `find` adds no error by itself |
| Ssh.RoutesIssued | limpieza.py:333-396 | every command a route loop issues equals the probe of some route, the search of some route, or the delete of some file, each built on the prefix |
| Ssh.ConnectionSudo | limpieza.py:317-396 | every command a connection issues starts with `sudo ` exactly when sudo is needed |
| Ssh.RoutesMonotone | limpieza.py:333-396 | each route issues at least its probe, and the counters never decrease |
| Ssh.ConnectionFailures | limpieza.py:311-313 | without paramiko the result is (0, 1); a session that cannot be opened gives one error per route and issues nothing; a failing close adds one error per route |
| Ssh.SshSession.constructor | limpieza.py:315-318 | a session starts with no commands and zero counters |
| Ssh.SshSession.Execute | limpieza.py:271-298 | running a command appends it to the log and returns the shell's answer as `ejecutar_comando_ssh` reports it |
| Ssh.SshSession.DeleteFile | limpieza.py:378-396 | deleting one target leaves the state the delete step specifies |
| Ssh.SshSession.DeleteAll | limpieza.py:375-396 | the delete loop leaves the state the deletes specify |
| Ssh.SshSession.SearchAndDelete | limpieza.py:351-396 | the search runs once and its non-blank output lines are deleted |
| Ssh.SshSession.PurgeRoute | limpieza.py:333-396 | one route leaves the state the route step specifies |
| Ssh.SshSession.PurgeRoutes | limpieza.py:333-396 | the route loop leaves the state the routes specify |
| Ssh.SshSession.PurgeConnection | limpieza.py:300-415 | `eliminar_archivos_ssh` issues exactly the specified commands and returns the specified totals |
| Config.Aliased | limpieza.py:174-177 | writing the alias into the local entries keeps one entry per connection |
| Config.FindInKeys | limpieza.py:173 | an alias that is found is the key of some connection |
| Config.MergeLookup | limpieza.py:155-193 | the merged entry of an alias exists exactly when the merge keeps it, and is that entry |
| Config.MergeDistinct | limpieza.py:155-193 | the merge has distinct aliases, each one of a configured connection |
| Config.EntryFields | limpieza.py:173-193 | a non-local alias without credentials is dropped; a local entry gets its alias; otherwise the keys are the union, the alias wins, credential keys override the configuration, and missing required fields do not drop the entry |
| Config.ConfigFile.constructor | limpieza.py:167 | a configuration holds the given connections |
| Config.ConfigFile.Combine | limpieza.py:155-193 | `combinar_configuracion` returns the merge and writes the alias into the local entries in place |
| Config.ConfigFile.AbsorbAt | limpieza.py:173-186 | one iteration handles one connection and changes only its own entry |
| Config.AliasedAt | limpieza.py:174-177 | each entry after the in-place writes is the original entry with its alias |
| Config.CombineCopy | limpieza_2.7.py:184-225 | the Python 2 variant, which copies local entries, returns the same merge |
| Config.NeedsParamikoWitness | limpieza.py:206-209 | paramiko is needed only if some connection is SSH or SFTP, with none before it lacking a `tipo` |
| Config.WitnessNeedsParamiko | limpieza.py:206-209 | such a connection makes paramiko needed |
| Config.NeedsParamikoTotal | limpieza.py:206-209 | when every connection has a `tipo`, the check does not raise |
| Config.NeedsParamikoFalse | limpieza.py:206-209 | when paramiko is not needed, no connection is SSH or SFTP |
| Config.NeedsParamikoMeaning | limpieza.py:206-209 | paramiko is needed exactly when such a first SSH/SFTP connection exists |
| Config.DependenciesMeaning | limpieza.py:195-216 | when every connection has a `tipo`, `verificar_dependencias` fails exactly when paramiko is missing and some connection is SSH or SFTP |
| Retention.GoodPrefixMeaning | limpieza.py:655-674 | the routes handled before a malformed entry raises are the leading well-formed ones, and all of them when none is malformed |
| Retention.ProcessCrashes | limpieza.py:636-691 | a connection escapes `procesar_conexion` exactly when its `tipo` is missing or not text, or its `rutas` has no length and no early return comes first; nothing is deleted then |
| Retention.UnknownTipo | limpieza.py:685-687 | an unknown `tipo` counts one error per route and deletes nothing |
| Retention.ShellWithoutParamiko | limpieza.py:311-313 | without paramiko an SSH or SFTP connection is one error |
| Retention.SshDispatch | limpieza.py:676-677 | an SSH connection returns exactly what the SSH back end returns |
| Retention.SftpDispatch | limpieza.py:679-680 | an SFTP connection returns exactly what the SFTP back end returns |
| Retention.FtpDispatch | limpieza.py:682-683 | an FTP connection returns exactly what the FTP back end returns |
| Retention.RemoteMalformed | limpieza.py:517-522 | a malformed route entry on an open remote connection ends the route loop there; the back end's own handler returns what the routes before it counted plus one error per configured route (likewise at 405-413 for SSH and 627-632 for FTP) |
| Retention.LocalRoutesSound | limpieza.py:650-674 | a local connection's routes delete only their candidates and count exactly what they deleted |
| Retention.ProcessSound | limpieza.py:636-691 | one connection deletes local files only if it is local, and then only candidates; it counts them all, or reports `(0, len(rutas))` for a malformed entry |
| Retention.TotalsSound | limpieza.py:736-741 | the totals loop deletes only candidates of local connections |
| Retention.RunSound | limpieza.py:693-757 | the whole run deletes only local files that a local connection's route makes candidates |
| Retention.RunStops | limpieza.py:712-730 | the run stops untouched on an empty merge, and stops for missing dependencies exactly when paramiko is missing and an SSH/SFTP connection is found |
| Retention.FinishedWithoutParamiko | limpieza.py:728-741 | a run that finishes without paramiko had no SSH or SFTP connection |
| Retention.TotalsCrashed | limpieza.py:736-741 | once a connection has raised, the rest of the loop is skipped |
| Retention.PurgeSsh | limpieza.py:676-677 | the SSH branch as the program performs it |
| Retention.PurgeSftp | limpieza.py:679-680 | the SFTP branch as the program performs it |
| Retention.PurgeFtp | limpieza.py:682-683 | the FTP branch as the program performs it |
| Retention.FinishVariants | limpieza_2.7.py:557-570 | the Python 2 ending returns `(0, len(rutas))` on a malformed entry, and agrees with the Python 3 ending exactly when every entry is well formed or nothing had been counted |
| Retention.Branches27 | limpieza_2.7.py:524-572 | with a malformed entry the Python 2 SFTP and FTP back ends return `(0, len(rutas))`; with well-formed entries they return what those of `limpieza.py` return |
| Retention.PurgeSftp27 | limpieza_2.7.py:456-572 | the Python 2 SFTP back end as the program performs it, its session's counters standing for `contadores` |
| Retention.PurgeFtp27 | limpieza_2.7.py:574-690 | the Python 2 FTP back end as the program performs it |
| Retention.PurgeLocal | limpieza.py:650-674 | the local branch sums its routes' pairs on the shared disk |
| Retention.ProcessConnection | limpieza.py:636-691 | `procesar_conexion` returns the specified pair or raises, and leaves the specified files |
| Retention.RunPurge | limpieza.py:693-757 | `eliminar_archivos_antiguos` ends with the specified verdict and files |
| Retention.ProcessAll | limpieza.py:736-741 | the totals loop adds up the connections' pairs until one raises |
| DiagArgs.ParseArgs | diagnostico_acceso_2.7.py:686-712 | the `while` loop over the arguments ends with the options the parse specifies |
| DiagArgs.HelpStops | diagnostico_acceso_2.7.py:691-693 | once a help flag is read, nothing after it is looked at |
| DiagArgs.HelpFromArgument | diagnostico_acceso_2.7.py:691-693 | help is set only by a `--help`/`-h` argument, and always by one at the front |
| DiagArgs.VerboseFromArgument | diagnostico_acceso_2.7.py:694-695 | verbose is never cleared and is set only by a `--verbose`/`-v` argument |
| DiagArgs.ValueFromArgument | diagnostico_acceso_2.7.py:696-707 | each value option either keeps its default or holds the argument after an occurrence of it, lowercased only for `--tipo` |
| DiagArgs.TipoLowercase | diagnostico_acceso_2.7.py:702-704 | the type filter is always lowercase |
| DiagArgs.UnknownFromArguments | diagnostico_acceso_2.7.py:708-710 | unknown arguments are only appended, and each is one of the arguments |
| DiagArgs.ParseAppend | diagnostico_acceso_2.7.py:686-712 | once the loop has read a prefix without a help argument and without a value option still waiting for its value, the rest is parsed from the options it left |
| DiagArgs.TrailingValueOption | diagnostico_acceso_2.7.py:696-712 | a value option with nothing after it, after any arguments the loop reads through, is reported as unknown and parsing does not abort |
| DiagFilter.FilterConnections | diagnostico_acceso_2.7.py:603-615 | the filter loop builds exactly the specified filtered registry |
| DiagFilter.FilterStops | diagnostico_acceso_2.7.py:604-612 | once an entry without a text `tipo` raises, the filter raises |
| DiagFilter.FilterKeeps | diagnostico_acceso_2.7.py:604-615 | a connection is kept exactly when the alias filter is unset or equal, and the type filter is `all` or equal to the lowercased `tipo` |
| DiagFilter.FilterBreaks | diagnostico_acceso_2.7.py:606-610 | the filter raises exactly when some entry reaching the `tipo` test has a non-text `tipo` |
| DiagFilter.DiagEntryFields | diagnostico_acceso_2.7.py:630-634 | the diagnosed entry copies the configuration, sets the alias, then lets every credential key override, the alias included |
| DiagFilter.AgreesWithPurge | diagnostico_acceso_2.7.py:630-634 | for a non-local connection with credentials that do not name an alias, the diagnosis sees the same entry as the purge |
| DiagFilter.CredentialAliasWins | diagnostico_acceso_2.7.py:630-634 | an `alias` in the credentials wins in the diagnosis but not in the purge |
| DiagFilter.DispatchRuns | diagnostico_acceso_2.7.py:628-649 | one check per kept connection, in order, following its merged `tipo`; the loop stops only at an entry whose merged `tipo` is not text |
| DiagFilter.DispatchAll | diagnostico_acceso_2.7.py:628-649 | the dispatch loop produces the specified plan |
| DiagFilter.DispatchStops | diagnostico_acceso_2.7.py:628-649 | once an entry raises, the rest of the dispatch is skipped |
| DiagFilter.RunDiagnosis | diagnostico_acceso_2.7.py:598-649 | `ejecutar_diagnostico_completo` stops on no connections or no match, and otherwise dispatches the filtered ones |
| DiagFilter.Diagnosed | diagnostico_acceso_2.7.py:603-649 | every check that runs is for a kept configured connection, on its merged entry, of the kind its `tipo` names |
| DiagFilter.AllKeptDiagnosed | diagnostico_acceso_2.7.py:603-649 | when nothing raises, every kept connection is diagnosed |
| DiagLocal.CountFiles | diagnostico_acceso_2.7.py:192-221 | the nested `os.walk` loops produce the specified counts |
| DiagLocal.CountInMeaning | diagnostico_acceso_2.7.py:200-218 | one listing adds all its files to the total and its old mask-matching files to the old count |
| DiagLocal.CountAllMeaning | diagnostico_acceso.py:150-177 | the total counts every walked file regardless of the mask; the old count counts only mask-matching files older than the limit |
| DiagLocal.AgedBounds | diagnostico_acceso.py:150-177 | the old count never exceeds the total, and is 0 when `dias` is not positive |
| DiagLocal.MoreDaysFewerAged | diagnostico_acceso.py:150-177 | with positive `dias`, raising `dias` never raises the old count |
| DiagLocal.WalkListsAll | diagnostico_acceso.py:155-157 | when every directory can be listed, the total is the number of files in the tree |
| DiagLocal.DiagnoseLocal | diagnostico_acceso_2.7.py:155-260 | the route loop yields the specified summary, or "no routes" |
| DiagLocal.CheckRoute | diagnostico_acceso_2.7.py:185-241 | one route is classified as missing, a directory with its counts and writability, a plain file, or something else |
| DiagLocal.InspectMeaning | diagnostico_acceso_2.7.py:185-241 | a route is missing exactly when its path does not exist, and is free of problems exactly when it is a writable directory |
| DiagLocal.FindingsAt | diagnostico_acceso_2.7.py:174-241 | there is one finding per route, in order |
| DiagLocal.CountersCover | diagnostico_acceso_2.7.py:185-241 | each route adds to verified or to problems, each at most once |
| DiagLocal.NoProblemsIff | diagnostico_acceso_2.7.py:185-241 | no problems exactly when no finding is a problem |
| DiagLocal.AllVerifiedIff | diagnostico_acceso_2.7.py:185-187 | all routes verified exactly when none is missing |
| DiagLocal.ReadyIff | diagnostico_acceso_2.7.py:185-241 | no problems exactly when every route exists, is a directory and is writable |
| DiagLocal.AllExistIff | diagnostico_acceso_2.7.py:185-187 | every route verified exactly when every route exists |
| DiagPaths.AddRoutesGrow | diagnostico_acceso.py:98-111 | adding routes never removes a path |
| DiagPaths.AddRoutesRaises | diagnostico_sftp.py:25-28 | the expansion raises exactly for the relative variant on an entry without `ruta` |
| DiagPaths.RouteKept | diagnostico_acceso.py:98-102 | in every variant, including the one as written, every configured route (every non-empty one for the absolute variants) is in the result verbatim |
| DiagPaths.RouteCovered | diagnostico_sftp.py:25-37 | every route, with all its cumulative prefixes, is in the result (relative form for the SFTP variant, rooted form for the corrected absolute variant) |
| DiagPaths.BaseAndHomes | diagnostico_acceso.py:92-116 | the base paths, and the home directories when there is a `usuario`, are always in the result |
| DiagPaths.GuardMissesRelativeRoute | diagnostico_acceso.py:105-111 | as written, the route `data` yields no `/data`, while the corrected expansion includes it |
| DiagPaths.AbsoluteRoutesAgree | diagnostico_acceso.py:98-111 | for absolute routes the written guard and the corrected one give the same paths |
| DiagPaths.AddComponents | diagnostico_acceso.py:105-111 | the component loop adds exactly the specified prefixes |
| DiagPaths.AbsolutePaths | diagnostico_acceso.py:85-118 | the absolute variant returns a strictly ascending list holding exactly its expanded set |
| DiagPaths.RelativePaths | diagnostico_sftp.py:12-43 | the relative variant raises exactly when its set raises, and otherwise returns a strictly ascending list holding exactly that set |

## Left out

- Logging, console output, JSON loading, the search for the credentials file, and
  all diagnostic printing (help text, recommendations, emoji summaries). They are
  I/O.
- Real `os`, paramiko and ftplib calls, sockets, timeouts, authentication and
  host-key policy. These are replaced by finite trees plus failure sets.
  Termination is structural, so symlink cycles cannot be expressed.
- The SSH, SFTP and FTP diagnosis bodies (`whoami`, sudo checks, temporary-file
  write probes). These are remote I/O. Only their dispatch is modelled.
- Wall-clock time. `now` and mtimes are integer seconds, not floats. The
  timezone used by `time.mktime` is a fixed UTC offset per FTP session.
- The clock is read once per run, as `now`. The program reads `time.time()`
  again for each local route (limpieza.py:230, limpieza_2.7.py:262) and for
  each directory of the SFTP and FTP walks (limpieza.py:448 and 551,
  limpieza_2.7.py:490 and 602), so the limit moves forward during a run. The
  soundness lemmas hold with `now` taken as the last reading and the
  completeness lemmas with `now` taken as the first, because a later reading
  keeps every candidate of an earlier one (`Rule.LaterClockMoreCandidates`).
- fnmatch: it is a `*`/`?` matcher without `[...]` classes and without
  `os.path.normcase`. `str.lower` is modelled for ASCII letters only.
- Dictionaries are ordered sequences of (alias, entry) pairs in insertion order.
  Python 2.7 dict iteration order is not modelled.
- Ssh.SshSession.PurgeConnection: the age cut-off of `find -mtime +dias` is not
  modelled. The `find` output is whatever the shell returns, so nothing is
  claimed about which remote files are old.
- Shell parsing of the built commands (unescaped quotes in masks and paths). The
  commands are compared as strings only.
- In the diagnosis, a route entry that is not a dictionary is not modelled.
- The parent-directory hint printed for a missing route, and the listing shown
  with verbose, are not modelled.
- Elapsed-time reporting and `main`'s exit codes.
- monitoring_dashboard.py is not part of this model. Its functions are stubs.
- FtpText.ParseStamp: accepts only the fourteen-digit form that section 3 of
  RFC 3659 requires. `time.strptime` also accepts fields without their leading
  zeros (`2024115123045` reads as 2024-11-05 12:30:45), so on such a reply the
  program may delete a file for which the model counts one error.
- Ftp.Resolve: the server's treatment of `.` and `..` inside a route, and of
  several slashes in a row, is not modelled. The path is joined as text.
- Sftp.SftpSession.PurgeConnection and Ftp.FtpSession.PurgeConnection take the
  well-formed routes only. A malformed entry is modelled one level up, by
  `Retention.SftpBranch27` and `Retention.FtpBranch27` for `limpieza_2.7.py`
  and by `Retention.SftpBranch` and `Retention.FtpBranch` for `limpieza.py`.
- `limpieza_2.7.py`'s run loop is the same as `limpieza.py`'s, apart from its
  SFTP and FTP back ends. `Retention.Process` uses the `limpieza.py` back ends.
  `Retention.Branches27` says where the Python 2 ones differ.
- DiagLocal.MoreDaysFewerAged: stated only for positive `dias`. With `dias <= 0`
  nothing is counted as old, so raising `dias` past 0 can raise the count.

## Findings

| source | as written | input that shows it | evidently intended | confidence | as-written member | corrected member |
|---|---|---|---|---|---|---|
| diagnostico_acceso.py:110 | the guard tests whether the un-prefixed cumulative path is present, but adds the `/`-prefixed one | a connection with the relative route `data`: the set already holds `data`, so `/data` is never added (`/var/log` still yields `/var`) | add the rooted prefix of every component, as the comment and the absolute case suggest | not executed | DiagPaths.GuardMissesRelativeRoute | DiagPaths.RouteCovered |
