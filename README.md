# yourpm, modelled in Dafny

yourpm is a small package manager for developer tools. Its pieces:

- **Content store.** Downloads are installed under `store/<name>-<version>`.
- **Profile.** A profile's `bin` directory links every command to its store entry.
- **Container-backed commands.** These tools run inside a long-lived Docker container named `yourpm-<name>`, reached through a small executor (`container-exec`).
- **Prune commands.** These remove stale containers, images and dangling profile links.

This project models the reconciliation core of yourpm and proves what each step does to the file system and to the container runtime.

**The file system** (modules `Os`, `Disk`) is a map from paths to nodes:

- A path is a sequence of components.
- A node is a directory, a file with content and mode, or a symbolic link.
- The pure operations model the Go standard library calls the code makes: `Stat`, `Lstat`, `Readlink`, `MkdirAll`, `Remove`, `RemoveAll`, `Symlink`, `Rename`, `Chmod`, `ReadDir` and a file copy. Only a link in the final component of a path is followed (see "## Left out").
- `filepath.Join` applied to a tar header name cleans it: `""` and `"."` components vanish and `".."` steps up (`Paths.JoinPath`).
- Each of these fails with the error the state calls for.
- `Disk.FileSystem` is the mutable file system that the methods change in place.

**The container runtime** (module `Engine`) is a value with four parts: the containers (name, image, running), the local images, the images the registry offers, and whether the daemon is reachable.

- `Engine.Interpret` gives what one `docker` invocation does and prints.
- `Engine.Docker` is the object that every client call goes through. It keeps the runtime and the log of invocations.
- "Exactly one remove, then one create, never a start" can therefore be stated about the log, through `Engine.Mutations`. That function keeps only the invocations that can change the runtime.

**The modules follow the source:**

| Module | Models |
|---|---|
| `Store` / `StoreLemmas` | `pkg/store` |
| `Profile` | `pkg/profile` |
| `Symlinks` / `SymlinkLemmas` / `SymlinkExample` | `pkg/symlinks` |
| `Manifest` | `pkg/manifest` |
| `Config` | the configuration records of `pkg/config` |
| `DockerClient` | `pkg/docker` |
| `Containers` | `pkg/containers` |
| `ContainerExec` | `cmd/container-exec` |
| `Prune` | `pkg/prune` |
| `CmdPrune` | `prune containers`, `prune images` and the orphan sweep in `pkg/cmd` |
| `CmdSwitch` | the container part of `switch` in `pkg/cmd` |

**How the operations are written:**

- Operations that change state are methods. Their loops carry invariants, and each is proved equal to a specification function of the old state. Examples: `Store.Store.Install` against `Store.InstallOutcome`, and `Prune.PruneService.PruneContainers` against `Prune.PruneOutcome`.
- The lemmas then prove the properties the code promises about those functions.
- The three container reconcilers of the source behave differently, and each is modelled as written:
  - `ContainerExec.EnsureCurrent` compares images and recreates.
  - `Containers.EnsureRunning` never compares images.
  - `CmdSwitch.VersionEffect` only removes.

## Model

| member | source | states |
|---|---|---|
| Manifest.GetPackage | pkg/manifest/manifest.go:34-40 | Succeeds exactly when the name is a key of the manifest and returns that definition; otherwise the package-not-found error naming it |
| Manifest.GetURL | pkg/manifest/manifest.go:42-58 | An unknown package gives the package-not-found error; a package without a URL template for `"{os}-{arch}"` gives the platform error naming both; it succeeds exactly when such a template exists, and then returns the template with every `{version}` replaced |
| Manifest.GetURLFirstPlaceholder | pkg/manifest/manifest.go:56 | For a template `before + "{version}" + after` with no placeholder starting inside `before`, the URL is `before`, the version, then `after` with its own placeholders replaced |
| Strings.ReplaceAllFirst | pkg/manifest/manifest.go:56 | strings.ReplaceAll scans left to right: the text before the first occurrence is kept, that occurrence becomes the replacement, and only what follows is searched further |
| Manifest.GetURLVerbatim | pkg/manifest/manifest.go:56 | A template that does not contain `{version}` is returned verbatim |
| Manifest.GetURLLength | pkg/manifest/manifest.go:56 | The URL is as long as the template plus `k·(|version| − 9)`, k being the number of non-overlapping `{version}` occurrences found left to right; k is 0 exactly when the template has none |
| Config.Loaded | pkg/config/config.go:21-32 | A decoded configuration is returned only when its name is set, and then unchanged |
| Config.ActiveContainers | pkg/symlinks/manager.go:42-46 | The active container names are the keys of the loaded configuration, and none when it could not be loaded |
| Store.StorePath | pkg/store/store.go:24 | The store path is a direct child of the store root |
| Store.TempDir | pkg/store/store.go:56 | The scratch directory `storePath.tmp` is a sibling of the store path, distinct from it |
| Store.InstallOutcome | pkg/store/store.go:23-35 | On success the result is `root/<name>-<version>`; when anything resolves at that path the result is that path and the tree is unchanged (the fast path) |
| Store.Store.Install | pkg/store/store.go:23-35 | The new tree and the result are those InstallOutcome gives for the old tree |
| StoreLemmas.ArchiveRoute | pkg/store/store.go:29-35 | The archive route is taken exactly when the download's last component ends in `.tar.gz` or has the extension `.tgz`; everything else is a single binary |
| Store.InstallBinaryOutcome | pkg/store/store.go:38-52 | A successful single-binary install returns the store path; every failure is a file-system error |
| Store.Store.InstallBinary | pkg/store/store.go:38-52 | MkdirAll, copy and chmod change the tree as InstallBinaryOutcome says |
| StoreLemmas.InstallBinaryCopies | pkg/store/store.go:38-52 | From a readable download with nothing at the store path, the install fails only when MkdirAll does, and otherwise leaves exactly one new file `storePath/name` with the download's content and mode 0755 besides the directories MkdirAll made |
| StoreLemmas.MkdirLeavesRoom | pkg/store/store.go:39-44 | After MkdirAll of an unresolved store path the destination entry is free, its parent is a directory, and the download still reads the same |
| StoreLemmas.CopyThenChmod | pkg/store/store.go:44-50 | Copying a readable file to a free entry and then chmod leave the content with mode 0755 |
| Store.InstallTarGzOutcome | pkg/store/store.go:55-83 | A successful archive install returns the store path |
| Store.Cleanup | pkg/store/store.go:63 | The deferred RemoveAll leaves nothing at or below the scratch directory when it existed, and passes the result through unchanged |
| Store.Store.InstallTarGz | pkg/store/store.go:55-83 | Clearing and making the scratch directory, extraction, the store directory and the move loop change the tree as InstallTarGzOutcome says |
| StoreLemmas.FreshScratch | pkg/store/store.go:56-62 | After RemoveAll and MkdirAll the scratch directory is an empty directory reached through directories, with nothing below it |
| Store.Store.ExtractTarGz | pkg/store/store.go:86-136 | The header loop changes the tree as Extract says and stops at the first failing entry |
| Store.Store.ExtractHeader | pkg/store/store.go:110-133 | One header, at `filepath.Join(destDir, name)` with `.` and `..` cleaned: a directory is made, a regular file written below its parent, any other kind skipped; nothing keeps the target within `destDir` |
| Paths.JoinPlain | pkg/store/store.go:110 | Joining a name of plain components appends them, so the target is below the directory |
| Paths.JoinClimbs | pkg/store/store.go:110 | A name starting with one `..` per component of the directory joins to the path the rest names from the root, outside the directory |
| StoreLemmas.ExtractEscapes | pkg/store/store.go:110-133 | The header `../../evil` extracted into `/home/s/p-1.tmp` writes `/home/evil`, which removing the scratch directory leaves behind; the guarded version refuses it |
| StoreLemmas.ConfinedExtractionInScratch | pkg/store/store.go:100-133 | With the intended check that the target stays within the scratch directory, extraction only adds entries strictly below it and changes nothing outside it, whatever the header names |
| StoreLemmas.ConfinedAgrees | pkg/store/store.go:100-133 | On headers that stay within the directory the check never fires: the guarded loop equals the loop as written |
| StoreLemmas.Materialised | pkg/store/store.go:112-133 | The entries kept are exactly the directory and regular-file headers |
| StoreLemmas.ExtractSkipsOthers | pkg/store/store.go:112-133 | Extraction behaves exactly as if every header other than a directory or a regular file were absent |
| StoreLemmas.ExtractInScratch | pkg/store/store.go:86-136 | When every header's joined target stays within the scratch directory, extraction only adds entries strictly below it and changes nothing outside it |
| Store.Store.FindAndMoveBinary | pkg/store/store.go:140-181 | The walk, rename-or-copy and chmod change the tree as FindAndMove says |
| StoreLemmas.FindAndMoveFirstMatch | pkg/store/store.go:140-181 | It never fails over the loop's state; it finds nothing exactly when no non-directory below the scratch directory is named `b`; otherwise the first such entry in walk order is moved to `storePath/b` with mode 0755 and nothing else changes |
| Store.Store.MoveBinaries | pkg/store/store.go:73-81 | The loop over the requested names changes the tree as MoveAll says |
| StoreLemmas.MoveAllPlaces | pkg/store/store.go:73-81 | No file-system error occurs; binaries already placed stay placed; on success every requested name is an executable file in the store directory; on failure the error names a requested binary not found |
| StoreLemmas.MoveAllStops | pkg/store/store.go:73-81 | Once a name has failed, the names after it are not looked at |
| StoreLemmas.ArchiveInstall | pkg/store/store.go:55-83 | With nothing at the store path: success places every requested binary; a missing binary leaves the store directory in place and names a requested binary; once the scratch directory was made nothing below it survives |
| StoreLemmas.RetryTakesFastPath | pkg/store/store.go:25-27 | After an archive install failed on a missing binary, installing again takes the fast path and changes nothing |
| Profile.Profile.Link | pkg/profile/profile.go:19-40 | MkdirAll of `bin` and the remove-then-symlink loop change the tree as LinkOutcome says, with its error |
| Profile.LinkPlacesLinks | pkg/profile/profile.go:20-37 | After a nil return `bin` resolves to a directory, each `bin/b` is a link to `storePath/b`, every other entry is as MkdirAll left it, and nothing else appears |
| Profile.RelinkedAt | pkg/profile/profile.go:30-34 | An entry exists after relinking exactly when it existed or is `bin/b` for a requested `b`; each `bin/b` is a link to `storePath/b`, and every other entry is unchanged |
| Profile.RelinkedTwice | pkg/profile/profile.go:30-34 | Relinking the same names to A and then to B gives the same tree as relinking them to B alone |
| Profile.LinkTwice | pkg/profile/profile.go:27-34 | A second Link of the same names after a successful one gives what linking the original tree to the second store path gives: the last writer wins |
| Profile.LinkIdempotent | pkg/profile/profile.go:30-34 | Linking the same names to the same store path twice leaves the tree of the first call |
| Profile.LinkAllIff | pkg/profile/profile.go:25-37 | The loop succeeds exactly when every name can be removed-then-linked in the tree it starts from |
| Profile.LinkAllStops | pkg/profile/profile.go:34-36 | In a valid tree the loop stops at the first name it cannot link: the error names it, the names before it are linked, later names are not tried |
| Profile.LinkFailure | pkg/profile/profile.go:34-36 | A failed Link names a requested binary and leaves exactly the links made for the names before it |
| Symlinks.ShouldRemove | pkg/symlinks/manager.go:74-134 | An entry is selected exactly when it is a symbolic link and either its target does not resolve, or it leads into the store, its store directory's marker entry is a link to `bin/container-exec`, and no active container `c` has the directory name starting with `c-` |
| Symlinks.Sweep | pkg/symlinks/manager.go:32-71 | With no profile bin directory the sweep changes nothing and reports no error |
| Symlinks.SymlinkManager.CleanupOrphanedSymlinks | pkg/symlinks/manager.go:32-71 | The new tree and error are those of Sweep over the configured names, with no container active when the configuration could not be loaded |
| SymlinkLemmas.Doomed | pkg/symlinks/manager.go:74-134 | The set of selected entries holds exactly the profile entries ShouldRemove selects on the tree |
| SymlinkLemmas.SweepRemovesSelected | pkg/symlinks/manager.go:32-71 | When no link points below the profile bin directory, a sweep that lists the directory removes exactly the entries selected on the tree it started from; a failed listing changes nothing |
| SymlinkLemmas.SweepIdempotent | pkg/symlinks/manager.go:32-71 | Under the same condition a second sweep over the state the first one left changes nothing |
| SymlinkLemmas.SweepOnlyRemovesLinks | pkg/symlinks/manager.go:54-64 | Whatever the links, the sweep only removes: surviving entries are unchanged and only links directly in the profile bin directory can disappear |
| SymlinkLemmas.SweepNothingSelected | pkg/symlinks/manager.go:54-64 | When no listed entry is selected the sweep changes nothing |
| SymlinkExample.SweepNotIdempotent | pkg/symlinks/manager.go:32-71 | With a profile link that chains through another profile link, the first sweep removes only `b` and the second removes `a`: without the condition above the sweep is not idempotent |
| Symlinks.SymlinkManager.RemoveSymlink | pkg/symlinks/manager.go:137-141 | Removes `bin/name` as os.Remove does, with its error |
| Symlinks.SymlinkManager.CreateSymlink | pkg/symlinks/manager.go:144-152 | Whatever was at `bin/name` is replaced by a link to the target, as Relink says |
| Symlinks.SymlinkManager.SymlinkExists | pkg/symlinks/manager.go:155-165 | True exactly when `bin/name` is a symbolic link |
| Symlinks.SymlinkManager.ListSymlinks | pkg/symlinks/manager.go:168-189 | Fails exactly when the directory cannot be read; otherwise the names of the link entries among the sorted directory names |
| Symlinks.LinkNamesMembers | pkg/symlinks/manager.go:168-189 | A name is listed exactly when it is a directory entry that is a symbolic link |
| Symlinks.LinkNamesSubsequence | pkg/symlinks/manager.go:168-189 | The listing keeps directory order: over sorted names it is itself strictly sorted |
| DockerClient.IsRunning | pkg/docker/client.go:68-75 | True exactly when `name` occurs as a substring of the running-name listing, false when ps fails; one ps, no change |
| DockerClient.Exists | pkg/docker/client.go:78-85 | The same over the listing of all containers |
| DockerClient.ReportsExisting | pkg/docker/client.go:78-85 | A container the runtime has is always reported present |
| DockerClient.ReportsNothingWhenDown | pkg/docker/client.go:68-85 | When the daemon cannot be reached both queries are false |
| DockerClient.ReportsBySubstring | pkg/docker/client.go:68-85 | A name contained in another container's name reads as present and running although no container has it |
| DockerClient.PsNamesAnswer | pkg/docker/client.go:69-70 | The name query answers one line per container (running ones only for IsRunning) |
| DockerClient.Issue | pkg/docker/client.go:88-103 | One invocation; the error is set exactly when it fails |
| DockerClient.Start | pkg/docker/client.go:88-91 | `docker start n`: the runtime as the invocation leaves it, error exactly on failure |
| DockerClient.Stop | pkg/docker/client.go:94-97 | `docker stop n`, likewise |
| DockerClient.Remove | pkg/docker/client.go:100-103 | `docker rm -f n`, likewise |
| DockerClient.CreateContainer | pkg/docker/client.go:106-135 | One invocation of CreateArgs; error exactly on failure |
| DockerClient.CreateArgsAppended | pkg/docker/client.go:106-131 | The pieces appended in order (name, entrypoint when set, volumes, working directory when set, image, command or keep-alive) form CreateArgs |
| DockerClient.VolumeFlagsOrder | pkg/docker/client.go:114-116 | Each volume sits right after its own `-v`, in the given order |
| DockerClient.AppendVolumes | pkg/docker/client.go:114-116 | The loop appends exactly the volume flags to the arguments |
| DockerClient.CreateArgsImage | pkg/docker/client.go:106-131 | The list starts `run -d --name n`, and docker's parser finds the image after it whatever the options |
| DockerClient.CreateArgsRun | pkg/docker/client.go:106-135 | On a reachable daemon without that name and with the image present or pullable, the invocation adds exactly one running container with that name and image and makes the image local |
| DockerClient.ExecCommand | pkg/docker/client.go:138-156 | One invocation of ExecArgs that changes nothing; error exactly on failure |
| DockerClient.ExecArgsFlags | pkg/docker/client.go:138-152 | `-it` exactly when interactive with a terminal, `-i` exactly when interactive without; the container named is the target |
| DockerClient.ImageExists | pkg/docker/client.go:159-163 | True exactly when the daemon is up and the image is local; no change |
| DockerClient.PullImage | pkg/docker/client.go:166-172 | Succeeds exactly when the daemon is up and the registry has the image, which then becomes local; a failure changes nothing |
| DockerClient.GetContainerImage | pkg/docker/client.go:175-182 | The trimmed inspect output or the failure, with no change |
| DockerClient.ImageOfExisting | pkg/docker/client.go:175-182 | Inspect gives back the image the container was created with, when that has no surrounding white space |
| DockerClient.ListContainers | pkg/docker/client.go:185-216 | The parsed listing of `ps` (with `-a` for all) with the name filter, or the failure; no change |
| DockerClient.PruneImages | pkg/docker/client.go:219-229 | One invocation of PruneArgs; error exactly on failure |
| DockerClient.PruneArgsAll | pkg/docker/client.go:219-223 | The arguments start `image prune -f` and hold `-a` exactly when aggressive |
| DockerClient.ParseContainerList | pkg/docker/client.go:232-254 | Returns ParsedList of the output |
| DockerClient.ParseEachLine | pkg/docker/client.go:238-252 | The loop keeps, in line order, one container per non-empty line with at least three `|` fields |
| DockerClient.ParseLines | pkg/docker/client.go:238-252 | The result is no longer than the number of lines |
| DockerClient.ParsedBlank | pkg/docker/client.go:233-236 | Empty or white-space-only output lists no containers |
| DockerClient.ParseRow | pkg/docker/client.go:244-250 | A formatted `name|status|image` line parses back to the container |
| DockerClient.ParseFormatted | pkg/docker/client.go:185-254 | Formatting containers as lines and parsing the text gives the same list back, when no field holds `|` or a newline and the text has no surrounding white space |
| Containers.GetContainer | pkg/containers/containers.go:31-37 | Succeeds exactly when the name is a key of the manifest, with its definition; otherwise the not-found error |
| Containers.CreateDockerCommand | pkg/containers/containers.go:39-60 | The loop builds OneShotArgs |
| Containers.OneShotArgsLayout | pkg/containers/containers.go:39-60 | The list is `run --rm -i`, the volume flags in order, `-w wd` exactly when a working directory is set, then the image, the command and its arguments at the end |
| Containers.OneShotArgsImage | pkg/containers/containers.go:39-60 | docker's parser finds the image where it was put |
| Containers.FormatStringSlice | pkg/containers/containers.go:106-121 | The loop builds SliceLiteral |
| Containers.SliceLiteralItems | pkg/containers/containers.go:106-121 | The literal starts `[]string{` and ends `}`; split at its quotes, every second piece is an item, in order, when no item holds a quote |
| Containers.QuotedRoundTrip | pkg/containers/containers.go:106-177 | Quoted words joined with a separator and framed, all free of quotes, are given back by splitting at the quotes |
| Containers.FormatVolumeMounts | pkg/containers/containers.go:171-177 | The loop builds VolumeMounts |
| Containers.VolumeMountsFlags | pkg/containers/containers.go:171-177 | The text is empty exactly when there are no volumes, and split at its quotes gives back the `-v volume` flags createContainer passes |
| Containers.MountWordsQuoted | pkg/containers/containers.go:171-177 | The mount words are the quoted `-v volume` flags, space separated |
| Containers.FormatWorkDir | pkg/containers/containers.go:179-184 | Empty exactly when no working directory is set; otherwise `"-w" "dir"` from which the directory reads back |
| Containers.FormatWorkDirExec | pkg/containers/containers.go:186-191 | Empty exactly when no working directory is set; otherwise `--workdir="dir"` from which the directory reads back |
| Containers.KeepAliveArgsImage | pkg/containers/containers.go:274-288 | The list starts `run -d --name n` and docker's parser finds the image |
| Containers.KeepAliveRun | pkg/containers/containers.go:274-293 | On a reachable daemon without that name, with the image present or pullable, exactly one new running container of that name and image appears |
| Containers.CreateKeepAlive | pkg/containers/containers.go:274-293 | One invocation of KeepAliveArgs; error exactly on failure |
| Containers.EnsureContainerRunning | pkg/containers/containers.go:231-244 | The runtime, log and error are those EnsureRunning gives |
| Containers.EnsureRunningIdle | pkg/containers/containers.go:233-235 | A container reported running gets no invocation that can change anything |
| Containers.EnsureRunningStarts | pkg/containers/containers.go:238-240 | A stopped container not reported running is started and keeps its image |
| Containers.EnsureRunningCreates | pkg/containers/containers.go:242-243 | A container reported nowhere is created running with the requested image: one mutating call, no start, no remove |
| Containers.EnsureRunningKeepsImage | pkg/containers/containers.go:231-244 | Images are never compared: an existing container keeps the image it was created with |
| Containers.EnsureRunningNeverRemoves | pkg/containers/containers.go:231-244 | No invocation it issues is a remove |
| Containers.StoppedShadowed | pkg/containers/containers.go:247-264 | A stopped `yourpm-go` beside a running `yourpm-golang` reads as running, so it is left stopped |
| Containers.ListedLines | pkg/containers/containers.go:247-264 | Split into lines, a name listing holds a non-empty name exactly when some container has it |
| Containers.EnsureContainerRunningExact | pkg/containers/containers.go:231-264 | The same reconciler with exact-line queries: runtime, log and error as EnsureRunningExact gives |
| Containers.EnsureRunningExactRuns | pkg/containers/containers.go:231-244 | With exact-line queries, distinct single-line names and the image at hand, the container ends up running: created with the image when absent, else the same container started |
| Containers.ExecuteCommand | pkg/containers/containers.go:194-228 | The runtime, log and error are those Execute gives |
| Containers.ExecArgsForTarget | pkg/containers/containers.go:203-219 | The exec names `yourpm-<name>` as its target, has `-it` exactly on a terminal, and ends with the command and its arguments |
| Containers.ExecuteAfterEnsure | pkg/containers/containers.go:194-228 | Exec comes last and only after the container was made to run; it succeeds exactly when the container is running then, and changes nothing |
| ContainerExec.FindContainerForCommand | cmd/container-exec/main.go:66-77 | The result is configured and defined with the command among its commands, with its configuration and definition; none exactly when no container provides it; it is the first provider in visiting order |
| ContainerExec.ImageRef | cmd/container-exec/main.go:42 | `image:version`: the image, a colon, the version |
| ContainerExec.ExecArgsMainShape | cmd/container-exec/main.go:79-95 | `exec -i`, `-w wd` exactly when set, the container as target, the command and its arguments at the end |
| ContainerExec.EnsureContainerRunning | cmd/container-exec/main.go:97-124 | The runtime, log and error are those EnsureCurrent gives |
| ContainerExec.AbsentCreatesOnce | cmd/container-exec/main.go:97-124 | A container the full listing does not show gets exactly one create and no remove or start |
| ContainerExec.AbsentCreated | cmd/container-exec/main.go:122-123 | ... and on a reachable daemon with the image at hand it runs with that image |
| ContainerExec.ChangedImageRecreates | cmd/container-exec/main.go:106-113 | An image change gives one remove then one create, never a start; a failed remove gives no create and no change |
| ContainerExec.ChangedImageReplaced | cmd/container-exec/main.go:106-113 | On a reachable daemon the container ends up running with the configured image |
| ContainerExec.SameImageStarts | cmd/container-exec/main.go:115-119 | With the configured image a stopped container gets one start and a running one nothing |
| ContainerExec.InspectFailureChangesNothing | cmd/container-exec/main.go:101-104 | A failed image read ends with an error and no change |
| ContainerExec.RecreateMutations | cmd/container-exec/main.go:109-112 | Remove, then create only when the remove worked; a failed remove changes nothing |
| ContainerExec.AbsentShadowed | cmd/container-exec/main.go:97-142 | An absent container whose name is inside another's reads as present; reading its image fails, so it is never created |
| ContainerExec.RunCommand | cmd/container-exec/main.go:14-64 | The provider found provides the command, none exactly when no container does; the runtime, log and error are those Dispatch gives |
| ContainerExec.DispatchRunsInProvider | cmd/container-exec/main.go:41-58 | The command runs in `yourpm-<name>` of its provider, after reconciling with `image:version`, and only if that succeeded; it succeeds exactly when that container then runs |
| Prune.Protected | pkg/prune/prune.go:47-54 | The protected names are `yourpm-<c>` for the configured containers, and none without a configuration |
| Prune.ProtectedNames | pkg/prune/prune.go:47-54 | The loop collects exactly the protected names |
| Prune.PruneService.PruneContainers | pkg/prune/prune.go:34-88 | The runtime, log and error are those PruneOutcome gives |
| Prune.PruneService.PruneListed | pkg/prune/prune.go:57-79 | The loop does what PruneEach says |
| Prune.PruneService.PruneAllContainers | pkg/prune/prune.go:91-122 | The runtime, log and error are those PruneAllOutcome gives |
| Prune.PruneService.PruneImages | pkg/prune/prune.go:125-133 | Passes `aggressive` to the client's image prune unchanged |
| Prune.PruneOneCalls | pkg/prune/prune.go:58-78 | A protected container is asked about unless aggressive; it gets its single `rm -f` exactly when it is not kept |
| Prune.PruneOneState | pkg/prune/prune.go:58-78 | Only a container of that name can go, and nothing but containers changes |
| Prune.PruneEachSubsequence | pkg/prune/prune.go:57-79 | The removals are a subsequence of one `rm -f` per listed container in listing order; a failed removal does not stop the loop |
| Prune.PruneEachCallForms | pkg/prune/prune.go:57-79 | Besides the removals the loop only asks whether containers run |
| Prune.UnprotectedRemovesAll | pkg/prune/prune.go:57-113 | Aggressive or with nothing protected, the loop is PruneAllContainers's and never queries IsRunning |
| Prune.PruneEachDecides | pkg/prune/prune.go:57-79 | With distinct names, container i gets its `rm -f` exactly when it is not both protected (when not aggressive) and reported running |
| Prune.PruneEachState | pkg/prune/prune.go:57-79 | On a reachable daemon the loop leaves exactly the containers whose name got no `rm -f` |
| Prune.PruneOutcomeCases | pkg/prune/prune.go:34-122 | An error exactly when the listing fails, and then nothing else; an empty listing asks nothing more; without a configuration, or aggressive, it is PruneAllContainers, which removes every listed container |
| Prune.PruneOutcomeState | pkg/prune/prune.go:34-88 | On a reachable daemon PruneContainers leaves exactly the containers it issued no `rm -f` for and touches no image |
| CmdPrune.AllFlag | pkg/cmd/cmd.go:296-302 | `--all` is set exactly when some argument is exactly `--all` |
| CmdPrune.DoomedNamesMembers | pkg/cmd/cmd.go:371-380 | A name is removed exactly when it is non-blank, not kept (aggressive or not active) and the trim of some listed line |
| CmdPrune.RemoveDoomedCalls | pkg/cmd/cmd.go:371-389 | One `rm -f` per doomed name, in listing order, and nothing else; failures do not stop the loop |
| CmdPrune.RemoveDoomedState | pkg/cmd/cmd.go:371-389 | On a reachable daemon exactly the containers named by a doomed line go |
| CmdPrune.ListingRoundTrip | pkg/cmd/cmd.go:353-362 | Trimmed and split at newlines, a listing of clean names gives the names back |
| CmdPrune.DoomedAreManaged | pkg/cmd/cmd.go:347-380 | Read from the listing, a container is removed exactly when its name is in the `yourpm-` namespace and not kept |
| CmdPrune.PruneKeepsExactly | pkg/cmd/cmd.go:345-403 | With the daemon up and clean names, exactly the containers outside `yourpm-` and, unless aggressive, those the active set names survive, running or not; no error, nothing but containers changes |
| CmdPrune.ConfiguredSurvive | pkg/cmd/cmd.go:363-380 | A configured container survives a non-aggressive prune whether running or stopped |
| CmdPrune.PruneManaged | pkg/cmd/cmd.go:345-403 | The runtime and log are those PrunedContainers gives; the sweep runs after every successful listing, including an empty one, and not after a failed one |
| CmdPrune.RemoveLines | pkg/cmd/cmd.go:371-389 | The loop does what RemoveDoomed says |
| CmdPrune.PruneAllManaged | pkg/cmd/cmd.go:405-452 | Every non-blank listed name is removed, then the sweep runs with no active container |
| CmdPrune.PruneContainers | pkg/cmd/cmd.go:283-323 | With a configuration prune against it; without one remove every managed container only with `--all`, and otherwise change nothing |
| CmdPrune.ImagePruneEffect | pkg/cmd/cmd.go:454-470 | The command's image prune does what the client's does for the same flag: containers are never touched |
| CmdPrune.PruneImages | pkg/cmd/cmd.go:325-343 | One image prune with `-a` exactly when `--all` is given |
| CmdPrune.OrphanDecision | pkg/cmd/cmd.go:496-559 | The inline decision with its `goto keepSymlink` selects exactly what Symlinks.ShouldRemove selects |
| CmdPrune.CleanupOrphanedSymlinks | pkg/cmd/cmd.go:472-567 | Its new tree and error are exactly those of the symlink manager's sweep |
| CmdPrune.SweepEntries | pkg/cmd/cmd.go:496-560 | The loop over the entries does what SweepNames says |
| CmdSwitch.EnsureContainerVersion | pkg/cmd/cmd.go:193-219 | The runtime, log and error are those VersionEffect gives |
| CmdSwitch.VersionLeavesAlone | pkg/cmd/cmd.go:198-208 | An absent container, an unreadable image or a matching one: no error, no mutating call, no change |
| CmdSwitch.VersionRemovesStale | pkg/cmd/cmd.go:210-216 | A different image: exactly one `rm -f` and no create; the container is gone, other containers and the images are as they were; it fails exactly when the runtime has no container of that exact name |
| CmdSwitch.VersionAgainstRuntime | pkg/cmd/cmd.go:193-219 | An existing container with a clean image name stays exactly when its image is the configured one |
| CmdSwitch.EnsureDockerImage | pkg/cmd/cmd.go:261-281 | The runtime, log and error are those ImageEffect gives |
| CmdSwitch.ImageEnsured | pkg/cmd/cmd.go:261-275 | The image is pulled exactly when it is not local; success exactly when it is local or pullable, and then it is local; containers untouched, no image lost |
| CmdSwitch.BuildContainerExec | pkg/cmd/cmd.go:179-191 | Makes the executor's directory and writes what the build produced, failing when it fails |
| CmdSwitch.PlaceCommandLinks | pkg/cmd/cmd.go:141-151 | The loop does what PlaceCommands says |
| CmdSwitch.PlaceCommandsLinks | pkg/cmd/cmd.go:141-151 | When the loop gets through, each command's entry is a link to the executor, every other entry is as it was, nothing else appears |
| CmdSwitch.StageContainerFiles | pkg/cmd/cmd.go:125-156 | The store directory, executor, command links and profile links as StageFiles says |
| CmdSwitch.PrepareStore | pkg/cmd/cmd.go:125-138 | The store directory, then the executor only when there is none |
| CmdSwitch.StageFilesLinks | pkg/cmd/cmd.go:140-156 | After the files part, every command has its link to the executor in the store directory and a profile link to that entry |
| CmdSwitch.ProfileKeepsStore | pkg/cmd/cmd.go:153-156 | Profile links never replace an entry of a store directory |
| CmdSwitch.SetupContainer | pkg/cmd/cmd.go:117-170 | One container's setup changes the tree, runtime, log and error as SetupStep says |
| CmdSwitch.SetupPlacesLinks | pkg/cmd/cmd.go:117-170 | A successful step found the definition and placed the links of every command |
| CmdSwitch.ReconcileRuntime | pkg/cmd/cmd.go:158-167 | The runtime part creates nothing: only a removal of the stale container and a pull of the configured image; no image is lost; on success the image is local |
| CmdSwitch.SetupRuntime | pkg/cmd/cmd.go:117-167 | The same for a whole step; a failure before the runtime part leaves the runtime alone |
| CmdSwitch.SetupContainers | pkg/cmd/cmd.go:117-170 | The loop over the configured containers in visiting order, stopping at the first failure, as SetupAll says |
| CmdSwitch.SetupAllImages | pkg/cmd/cmd.go:117-170 | Once the loop has gone through, every configured `image:version` is local |

## Left out

- Process execution, standard streams and exit codes are not modelled. `docker` is the runtime model of `Engine.Interpret`, and only its effect and printed text are modelled.
- Progress printing, removal counts and log messages are left out.
- `log.Fatalf` in `switch` is modelled as a returned error that stops the loop.
- The result of `os.UserHomeDir` is a `baseDir` parameter.
- Go map iteration order over `cfg.Containers` is an explicit `order` parameter, required to visit each key once. No proved property depends on which order is chosen.
- `ListContainers` and `ListRunningContainers` take at most the single `name=` filter the code passes (an `Option`), not an arbitrary filter map.
- `isTerminal` is a `terminal` parameter.
- TOML decoding of the configuration and the manifests is left out. Loaded values are parameters, or `Option`s for a load that may fail.
- `buildContainerExec`'s `go build` is left out. What it produces (or its failure) is the parameter `compiled`.
- Network downloads (`pkg/repository`) are left out.
- `main.go`'s command-line plumbing is not part of this model.
- gzip and tar decoding are left out. An archive is a sequence of `(name, kind)` entries plus how it ends, and file content is an opaque value.
- The file system has no permission bits and no ownership. Only mode 0755 of installed binaries is recorded, and errors arise only from the shape of the tree. Sweep removals of selected links therefore never fail in this model.
- Symbolic link targets are absolute paths, split into components. Relative targets and `..` components in link targets are not modelled.
- Only the final component of a path is followed through a symbolic link. A link in an intermediate component (say `~/.yourpm/store` itself a link to another disk) makes `Stat`, `Mkdir` and `MkdirAll` report the path missing or not a directory, where Go's calls follow it. Symlinks.ShouldRemove, the sweeps (Symlinks.Sweep, SymlinkLemmas, CmdPrune.CleanupOrphanedSymlinks) and the `MkdirAll` steps of Store and Profile are stated over that file system; on a tree with such a link the model would select a live profile link for removal.
- Directory paths the code builds on (the home directory and everything joined under it with plain names) are taken to be clean, so `filepath.Join` reduces to `Paths.JoinPath` on them.
- StoreLemmas.ExtractInScratch requires every archive in the tree to hold only headers whose joined target stays within the scratch directory. The code does not check this (see "## Findings").
- StoreLemmas.ExtractAndMoveResult requires the same of the scratch directory's archives, for the same reason.
- StoreLemmas.ArchiveInstall requires the same, since an escaping header could create the store path or survive the cleanup.
- StoreLemmas.RetryTakesFastPath requires the same, as it rests on ArchiveInstall.
- `GenerateGoWrapper` and `GenerateWrapperScript` are not part of this model. Only their helper formatters are modelled.
- Symlinks.ShouldRemove: the test `strings.HasPrefix(target, storePath)` at pkg/symlinks/manager.go:96 (and pkg/cmd/cmd.go:520) is modelled as a path-component prefix. A target such as `store2/…` that shares only the characters of the prefix is therefore treated as outside the store.
- SymlinkLemmas.SweepIdempotent and SymlinkLemmas.SweepRemovesSelected require that no link points below the profile bin directory. Without that condition the sweep is not idempotent (SymlinkExample.SweepNotIdempotent).
- Prune.PruneEachDecides requires distinct listed names. With a repeated name, a later occurrence is judged on the runtime the earlier removal left.
- CmdPrune.PruneKeepsExactly requires names without white space. The code trims each listed line before using it.
- Manifest.GetURL takes the platform as a parameter instead of `runtime.GOOS`/`runtime.GOARCH`.
- Error values carry the failing command or name rather than the wrapped Go error text. Only `GetContainer`'s message is kept verbatim.

## Findings

| source | as written | input that shows it | evidently intended | confidence | as-written member | corrected member |
|---|---|---|---|---|---|---|
| pkg/store/store.go:110-133 | `extractTarGz` writes each header at `filepath.Join(destDir, header.Name)` without checking that the cleaned target stays within `destDir`. | A regular-file header `../../evil` in an archive extracted into `/home/s/p-1.tmp` writes `/home/evil`; the deferred `os.RemoveAll(tempDir)` does not remove it. | Headers whose target leaves the scratch directory are refused. Extraction then changes nothing outside the scratch directory, whatever the archive holds. | not executed | StoreLemmas.ExtractEscapes | StoreLemmas.ConfinedExtractionInScratch |
| pkg/containers/containers.go:247-264 | `isContainerRunning` and `containerExists` test whether the name occurs anywhere in the `docker ps` name listing (`strings.Contains`). | A stopped `yourpm-go` next to a running `yourpm-golang`: `ensureContainerRunning("yourpm-go", …)` sees "running" and never starts it. | A listing line equal to the name. With that test, the container always ends up running: created when absent, started when stopped. | not executed | Containers.StoppedShadowed | Containers.EnsureRunningExactRuns |
