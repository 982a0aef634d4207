# Dalec in Dafny

Dalec turns one declarative spec into several outputs: an RPM spec file, a Debian source
tree, a BuildKit graph. This project models the parts of it where two outputs, or a loop and
what it is for, have to agree, and proves for all inputs when they do. Where a property does
not hold of the code as it is, the code is modelled as it is and the exact condition under
which it holds is proved instead.

`dafny verify dfyconfig.toml` checks everything.

| file | what it models |
|---|---|
| `values.dfy`, `order.dfy`, `text.dfy`, `paths.dfy`, `paths_laws.dfy` | options and bytes; Go's string order, `slices.Sort`, `SortMapKeys` and the order of ranging over a map; cutting and joining text; `filepath.Clean`/`Join` and the lexical path checks, with what the documentation of the path packages promises of them |
| `trees.dfy` | what `mkdir -p`, `cp -r` and `ln -s` do to a tree of directories, and when a script of them leaves everything where it was sent |
| `patches.dfy`, `patches_rpm.dfy`, `patches_deb.dfy`, `patches_terms.dfy` | applying patches: in memory, in the RPM `%prep` section, in the Debian patch script; when the three mean the same |
| `rpmfiles.dfy`, `rpmfiles_agree.dfy`, `rpmfiles_places.dfy`, `rpmfiles_tree.dfy` | the RPM `%install` and `%files` sections, the agreement of their paths, where each artifact goes and under which name, and what running `%install` leaves and `%files` covers |
| `constraints.dfy`, `dependencies.dfy`, `dependencies_rpm.dfy` | dependencies printed for Debian and for RPM, and read back as the package managers read them |
| `systemd.dfy` | enabling units in a Debian package: the rules, the custom postinst, and which units end up enabled |
| `routing.dfy`, `routing_nested.dfy` | the build target router and its nesting, the socket router |
| `pipe.dfy` | the in-memory listener, over all interleavings of Accept, Dialer and Close |
| `command.dfy` | commands that produce a source from an image |
| `sources.dfy`, `sources_laws.dfy`, `specs.dfy`, `specs_laws.dfy` | validating a spec and filling in its defaults; what is wrong with a source and what is filled in, told from the tree itself |
| `symlinks.dfy`, `symlinks_run.dfy` | validating and normalising symlinks in an image, the script that creates them, and what running it leaves |
| `gomod.dfy` | renaming the hosts of go module authentication while ranging over them |
| `base64.dfy`, `gitcred.dfy`, `gitcred_laws.dfy` | the git credential helper |
| `streams.dfy` | the message stream reader and the file of a BuildKit reference |

Some conventions run through all files.

- Ranging over a Go map is some duplicate-free list of its keys (`Order.Enumerates`), left
  open. A result that does not mention the list does not depend on it.
- Code that updates fields is a class with `modifies` clauses. Code that fills a local map,
  slice or buffer in a loop is a method with that loop, proved against a function. The
  source tree of a spec, which the code updates through pointers, is a value.
- What lies outside is a parameter: what `patch` does to a tree, what a build step does to
  a file system, URL parsing, digest syntax, shell expansion of hosts, the texts of the
  postinst templates, whether the gateway answers.
- Errors are results. A panic is an outcome, not a precondition.

## What turned out not to hold

- RPM `%prep` and the in-memory patching differ when a source patches itself after its first
  patch, or when a patch path climbs into another source (`PrepPatches.Safe`, exact by
  `PatchTerms.PrepExact`; `PatchTerms.SelfPatchDiffers` has such a spec). The Debian script
  differs when a patch source that sorts before its target is patched itself, when a target
  takes two files from one source, and when a file-backed patch source is given the path `.`
  or `/`, which `validatePatch` accepts (`DebPatches.Safe`, exact by `PatchTerms.ScriptExact`;
  `PatchTerms.PatchedEarlierDiffers`, `PatchTerms.TwoFilesDiffer`, `PatchTerms.DotPathDiffers`).
- `%install` puts an artifact inside a directory that is where it should be, such as the
  sub-path of another artifact, and a link takes the place of a binary that has it already,
  such as `/usr/bin/foo` that of `%{_bindir}/foo`. It leaves everything where `%files` looks
  for it when no place, with its macros expanded, equals another or is at or above a directory
  that is made; when no artifact is a directory, only then (`RpmTrees.InstallDelivers`,
  `RpmTrees.CrowdedExample`, `RpmTrees.LinkOverExample`).
- A manpage without a sub-path, or with a hidden name, is installed and not covered by
  `%files`, unless something listed is above it (`RpmTrees.CoveredExactly`,
  `RpmTrees.ManpageMatches`).
- A version constraint without a space after its operator is printed unchanged by both
  backends; RPM cannot read it and Debian reads `<` and `>` inclusively. The documentation
  comment of the field in `deps.go` uses that form (`Constraints.BothReadExactly`,
  `Constraints.DocumentedExample`).
- `errorIsOnly` does not ask that there be no other error. `BaseImage.validate` hands it a
  wrapped error, so a base image without a path is accepted whatever else is wrong with it,
  and filling in its defaults can panic (`Specs.BaseAcceptedExactly`,
  `Specs.AcceptedPanics`). The exact extent is `Specs.SafeExactly`.
- `validateSymlinks` compares new paths as they are written. Accepted links are made as asked
  if and only if none of them leads to anything that the image has or to a directory that is
  made on the way to another, no file or link of the image is on the way, and no two lead to
  one place (`SymlinkScripts.AcceptedLinksMade`). It fails for `/a` beside `a`
  (`SymlinkScripts.SamePlaceTwice`); for `/a` beside `/a/b`, where the first link can land
  inside the directory made for the second (`SymlinkScripts.NestedLinks`,
  `SymlinkScripts.LandsInside`); for `/` (`SymlinkScripts.RootLink`); and in an image that has
  a file where the link or its directory is to be (`SymlinkScripts.FileThere`,
  `SymlinkScripts.FileOnTheWay`).
- A mount is recognised as lying at or below the extract path only if both are written
  absolute, or both relative and climbing equally far (`Commands.ValidExactly`). Under `usr`
  the destinations `/usr/x` and `../usr/x` are accepted, and under `/usr` the destination
  `usr/x` (`Commands.MissedMounts`). The steps do what they would on one file system, whatever
  they are, if and only if no mount is strictly below the extract path
  (`Commands.AloneExactly`). When the root is extracted, a mount such as `//` must not be used
  after the first step (`Commands.RootExactly`).
- The credential reader drops everything from the first line longer than a scanner's buffer
  on, and a header secret that ends in a newline does not survive its response
  (`GitCredential.RoundTripExactly`, `GitCredential.LongPassword`,
  `GitCredential.HeaderReadsBack`).
- A unit without a dot in its name is not enabled when its base name has disabled units too
  (`Systemd.SatisfiedExactly`, `Systemd.DotlessUnit`). When units of one name ask for
  different things, the rules and the fragment can each follow another one: the rules append
  a fragment that was not written, or a unit ends up other than asked
  (`Systemd.AppendedExactly`, `Systemd.AlwaysSatisfiedExactly`).
- A first Accept after Close waits forever, and Close can make a dialer panic
  (`PipeListener.AcceptStuck`, `PipeListener.PanicReachable`).
- A target that starts with a slash and is matched by the empty route loses the slash in a
  not-found error (`NestedRouting.NotFoundNamesTarget`, `NestedRouting.LeadingSlashLost`).

## Model

| member | source | states |
|---|---|---|
| Order.SortMapKeys | helpers.go:158-174 | whatever order the map yields its keys in, the result is the strictly ascending list of exactly those keys |
| Order.SortedKeysUnique | helpers.go:158-174 | there is only one such list, so two runs over the same map agree |
| Order.FirstDifferenceDecides | helpers.go:158-165 | the order is Go's: a string is at or before another exactly when it begins it, or has the smaller character where the two first differ |
| Paths.PathHasPrefixIsDescent | source.go:159-175 | `pathHasPrefix` holds exactly when both paths start alike and the components of the prefix begin those of the path, except that a prefix cleaning to the root or the current directory contains only itself |
| Paths.PathHasPrefixByPlace | source.go:159-175 | for a prefix that leads somewhere from the root: it holds exactly when both paths start at the root or climb equally far, and the place of the prefix begins that of the path |
| Paths.AbsoluteHasPrefix | source.go:159-175 | with a slash in front of both, it holds exactly when the place of the prefix begins that of the path |
| PathLaws.SlashesAndDots | source.go:159-175 | cleaning makes several slashes one and drops `.` elements, wherever they are |
| PathLaws.ParentGoesAlong | source.go:159-175 | and drops a name together with the `..` after it |
| PathLaws.NothingAboveRoot | source.go:159-175 | and drops `..` at the start of an absolute path |
| PathLaws.NamesAreClean | source.go:159-175 | and changes nothing else: names after leading `..` elements are clean |
| PathLaws.DirDropsLast | helpers.go:311-311 | the directory of a path is what is before its last element, cleaned |
| PathLaws.BaseIsLast | artifacts.go:137-142 | the base of a path is its last element, whatever is before it and however many slashes are after it |
| PathLaws.BaseOtherwise | artifacts.go:137-142 | without an element it is `/`, and of no text `.` |
| PathLaws.NameIsGivenOrLast | artifacts.go:137-142 | a file is installed under the name it is given, or else under the last element of its key |
| Trees.DeliversExactly | packaging/linux/rpm/template.go:732-767 | from any tree of directories, files and links, a script of `mkdir -p` and `cp` or `ln -s` leaves everything at its place and the rest as it was if and only if no place is taken or is at or above a directory that is there or made, no file or link is at or above a directory to make, each thing has its directory made before, and no two go to one place |
| Patches.PatchPathBelow | packaging/linux/rpm/template.go:398-403 | a patch path that does not climb stays inside its source, and the Debian copy is taken from the same place |
| Patches.Plan.PatchSource | source.go:203-229 | the loop over one source's patches is the fold of `patch` over its tree |
| Patches.Plan.FoldIsPatched | source.go:203-229 | when the map is as the sorted loop finds it, that fold is the reference tree |
| Patches.StateMap.Duplicate | helpers.go:167-174 | a new map with the same entries |
| Patches.Plan.PatchSources | source.go:231-249 | overwriting a duplicate of the caller's map in sorted order gives every source its reference tree: patches from sources that sort strictly earlier are read patched, all others as they came; on every spec, and the caller's map is unchanged |
| Patches.Plan.FetchPatchSources | source.go:251-270 | fails exactly when a patch names an unknown source; otherwise adds exactly the patch sources, unpatched |
| Patches.Plan.GetPatchedSources | source.go:251-270 | for every filter: fails exactly when a kept source has an unknown patch source; otherwise patches exactly the kept sources and their patch sources |
| Patches.Plan.PartAgrees | source.go:251-270 | patching part of the sources gives a source the tree it has when all are patched, if the part holds everything the source depends on |
| Patches.Plan.KeptSourcesAgree | source.go:251-270 | when no patch source is itself patched, every kept source gets the tree `PatchSources` gives it over the whole spec, whatever the filter |
| PrepPatches.PrepareSources | packaging/linux/rpm/template.go:398-403 | the `%prep` commands: all patches of each target, targets in sorted order |
| PrepPatches.PrepAgrees | packaging/linux/rpm/template.go:398-403 | run one after another in the one directory they all change, the commands leave every source with the tree `PatchSources` computes, for every safe spec |
| PrepPatches.PlainSpecSafe | packaging/linux/rpm/template.go:398-403 | a spec where no source patches itself and no patch path climbs out of its source is safe |
| PatchTerms.PrepExact | packaging/linux/rpm/template.go:398-403 | in the interpretation that records every step, the commands agree with `PatchSources` if and only if the spec is safe |
| PatchTerms.SelfPatchDiffers | packaging/linux/rpm/template.go:398-403 | a source whose second patch comes from itself is patched differently by the commands |
| DebPatches.SourcePatchesDir | packaging/linux/deb/debroot.go:46-77 | the copies a target gets: one per patch source, from the unpatched source, the last patch over the others |
| DebPatches.CreatePatchScript | packaging/linux/deb/debroot.go:325-338 | the script lists all patches of each target, targets in whatever order the map yields |
| DebPatches.ScriptDeterministic | packaging/linux/deb/debroot.go:325-338 | the trees the script leaves are the same for every order |
| DebPatches.ScriptAgrees | packaging/linux/deb/debroot.go:325-338 | they are the trees `PatchSources` computes, for every safe spec |
| DebPatches.PlainSpecSafe | packaging/linux/deb/debroot.go:46-77 | a spec is safe when no patch source that sorts before its target is patched, no target takes two paths from one source, and no path climbs |
| PatchTerms.ScriptExact | packaging/linux/deb/debroot.go:325-338 | in the interpretation that records every step, the script agrees with `PatchSources`, in one order or in all, if and only if the spec is safe |
| PatchTerms.PatchedEarlierDiffers | packaging/linux/deb/debroot.go:46-77 | a patch from a source that sorts earlier and is patched itself is applied differently by the script |
| PatchTerms.TwoFilesDiffer | packaging/linux/deb/debroot.go:46-77 | so are two files from one source for one target |
| PatchTerms.DotPathDiffers | packaging/linux/deb/debroot.go:46-77 | so is a file-backed patch source with the path `.` |
| Specs.DotPathAccepted | load.go:581-597 | a patch with the path `.` is accepted exactly for a source that is not a directory |
| PatchTerms.PartExact | source.go:251-270 | in that interpretation, a fetched part patches a source as the whole does if and only if everything it depends on was fetched |
| PatchTerms.RecordedExists | source.go:203-249 | every spec has the interpretation in which the conditions are exact |
| PipeListener.Listener.AcceptBegin | sessionutil/socketprovider/pipe.go:26-33 | the first critical section makes the channel if there is none, and nothing else |
| PipeListener.Listener.AcceptEnd | sessionutil/socketprovider/pipe.go:35-59 | a received connection is recorded while open and refused once closed |
| PipeListener.Listener.DialBegin | sessionutil/socketprovider/pipe.go:61-72 | dialing is refused once closed; otherwise the channel is made if there is none |
| PipeListener.Listener.Close | sessionutil/socketprovider/pipe.go:99-116 | the first Close closes the channel and every recorded connection and forgets them; later ones do nothing |
| PipeListener.InvariantAlways | sessionutil/socketprovider/pipe.go:25-116 | the invariant of handovers, connections and channel holds after every run of any interleaving |
| PipeListener.ReceivedExactlyOnce | sessionutil/socketprovider/pipe.go:25-83 | a pipe whose dialer succeeded was received by exactly one Accept, and by none otherwise |
| PipeListener.ConnectionsAccountedFor | sessionutil/socketprovider/pipe.go:25-116 | while open, `conns` is exactly what Accept returned, in order, none of it closed; once closed, every connection ever returned or dropped is closed |
| PipeListener.NothingAfterClose | sessionutil/socketprovider/pipe.go:41-58 | after Close no run of further steps returns a connection, hands one over or reopens the listener |
| PipeListener.AcceptStuck | sessionutil/socketprovider/pipe.go:26-40 | an Accept waiting on a channel first made after Close is never woken, whatever happens |
| PipeListener.StuckReachable | sessionutil/socketprovider/pipe.go:26-40 | that situation is reachable |
| PipeListener.PanicReachable | sessionutil/socketprovider/pipe.go:72-80 | a dialer that is sending when the listener closes can panic |
| PipeListener.MeetingReachable | sessionutil/socketprovider/pipe.go:25-83 | a dialer and an Accept can meet and both return the connection |
| PipeListener.DropReachable | sessionutil/socketprovider/pipe.go:41-58 | a connection received right before Close can be dropped and closed |
| PipeListener.RefusalsReachable | sessionutil/socketprovider/pipe.go:35-72 | Close can let a waiting Accept and a later dialer be refused |
| PipeListener.CancelReachable | sessionutil/socketprovider/pipe.go:72-83 | a dialer nobody accepts can be cancelled |
| PipeListener.ClosedChannelOutcomes | sessionutil/socketprovider/pipe.go:35-83 | once closed: a waiting Accept can return exactly when the channel is closed, and a sending dialer is never received |
| RpmFiles.Install | packaging/linux/rpm/template.go:732-868 | the commands of all kinds of artifacts in the order and with the macros of `Install`, each kind in sorted key order |
| RpmFiles.Files | packaging/linux/rpm/template.go:870-1024 | the entries of all kinds of artifacts in the order and with the macros of `Files`, drop-ins grouped by unit, libexec joined in two steps |
| RpmFiles.GroupByUnit | packaging/linux/rpm/template.go:939-976 | the map holds exactly the units that occur, each with its files in key order |
| RpmFilesAgree.InstallFaces | packaging/linux/rpm/template.go:732-868 | the loops of `Install`, one by one, are about the artifacts and the macro directory of the table that pairs the two sections |
| RpmFilesAgree.FilesFace | packaging/linux/rpm/template.go:870-1024 | so are the loops of `Files`, the two-step join of libexec giving the same text as one join |
| RpmFilesAgree.InstallIsFiles | packaging/linux/rpm/template.go:732-1024 | for artifacts without `*` names that do not climb: the places `%install` names for files and links, minus the build root, are exactly the paths `%files` lists and the manpages it leaves to its glob, and every listed directory is made |
| RpmFilesAgree.DropinsComplete | packaging/linux/rpm/template.go:939-976 | grouping loses and invents nothing: an entry is listed exactly when it is the file of a drop-in or the directory of its unit |
| RpmPlaces.ArtifactInstalled | packaging/linux/rpm/template.go:732-868 | every artifact of every kind is copied below the macro of its kind, its sub-path and the name it is called by, after its directory is made and before its permissions are set, if it has any |
| RpmPlaces.ArtifactListed | packaging/linux/rpm/template.go:870-1024 | and is listed at that place with the directive of its kind |
| RpmPlaces.CalledIsResolved | artifacts.go:137-142 | it is called by its name, or else by the last element of its key |
| RpmPlaces.UnnamedPlace | packaging/linux/rpm/template.go:732-767 | without options, `bin/foo` goes to `foo` right below the macro of its kind |
| RpmPlaces.DirectoryMade | packaging/linux/rpm/template.go:775-800 | every directory asked for is made with its mode below its macro, and listed there |
| RpmPlaces.LinkInstalled | packaging/linux/rpm/template.go:856-859 | every link is made at its destination after its directory, and listed with its owner |
| RpmPlaces.OnlyAsked | packaging/linux/rpm/template.go:732-868 | `%install` has no other copies, links, permissions or modes |
| RpmTrees.InstallDelivers | packaging/linux/rpm/template.go:732-1024 | for every expansion of the macros: when no expanded place equals another or is at or above a made directory, running `%install` in an empty build root leaves every file and link, and nothing else, exactly where `%files` looks; when no artifact is a directory, everything gets to its place only then |
| RpmTrees.LinkOverBinary | packaging/linux/rpm/template.go:856-859 | a link whose place is that of a binary, once its macro is expanded, breaks that condition |
| RpmTrees.LinkOverExample | packaging/linux/rpm/template.go:856-859 | as the link `/usr/bin/foo` beside the binary `foo` does |
| RpmTrees.CrowdedSubPath | packaging/linux/rpm/template.go:732-767 | an artifact whose place is the sub-path of another breaks that condition |
| RpmTrees.CrowdedExample | packaging/linux/rpm/template.go:732-767 | as `x` in the sub-path `d` and an artifact `d` do, in a package of plain names |
| RpmTrees.CoveredExactly | packaging/linux/rpm/template.go:870-1024 | of what `%install` leaves in the build root, `%files` misses exactly the manpages that do not match the glob and have nothing listed at or above them, macros expanded |
| RpmTrees.ManpageMatches | packaging/linux/rpm/template.go:870-890 | a manpage matches exactly when its sub-path and name expand to at least two components, the first two not hidden |
| Constraints.WrittenIsRead | packaging/linux/deb/template_control.go:35-58 | a bare version or a spaced constraint is printed so that both package managers read what was meant |
| Constraints.BothReadExactly | packaging/linux/rpm/template.go:243-266 | both read the same requirement if and only if the constraint is not written without its space |
| Constraints.DocumentedExample | deps.go:16-21 | the documented example is such a constraint: Debian reads it inclusively, RPM not at all |
| Dependencies.AppendConstraints | packaging/linux/deb/template_control.go:63-95 | one string per package in name order; the caller's lists are left sorted |
| Dependencies.DebTextRead | packaging/linux/deb/template_control.go:69-92 | the relations in a package's string denote exactly its requirements, on every architecture |
| Dependencies.DebDenotes | packaging/linux/deb/template_control.go:63-95 | the strings of a list together denote exactly the list |
| Dependencies.SortKeepsMeaning | packaging/linux/deb/template_control.go:75-86 | sorting the lists in place changes neither what they require nor that they are well formed |
| RpmDependencies.WriteDep | packaging/linux/rpm/template.go:268-290 | appends the lines of one package, once per architecture between `%ifarch` and `%endif` |
| RpmDependencies.Requires | packaging/linux/rpm/template.go:195-222 | the build lines, then the runtime lines, in name order with their blank lines |
| RpmDependencies.DepLinesRead | packaging/linux/rpm/template.go:268-290 | those lines denote exactly the package's requirements on every architecture, under their own tag only |
| RpmDependencies.RequiresDenotes | packaging/linux/rpm/template.go:195-222 | the section denotes the build list under `BuildRequires`, the runtime list under `Requires`, and nothing under any other tag |
| RpmDependencies.SameDependencies | packaging/linux/rpm/template.go:268-290 | for every well-formed list and every architecture the Debian strings and the RPM lines denote the same requirements, before and after the in-place sort |
| Systemd.GroupUnitsByBaseName | packaging/linux/deb/template_rules.go:126-137 | every unit is under its base and full name, and nothing is there that no unit put there, for every map order |
| Systemd.RequiresCustomEnable | packaging/linux/deb/template_custom_dh_installsystemd_postinst.go:75-88 | the count decides whether the group has both enabled and disabled units |
| Systemd.OverrideSystemd | packaging/linux/deb/template_rules.go:139-194 | one line per base name, `--no-enable` exactly when one of its units is disabled, whichever key is first; the fragment is appended exactly when some group is mixed |
| Systemd.CustomPostinst | packaging/linux/deb/template_custom_dh_installsystemd_postinst.go:32-59 | the templates executed: for each mixed group each unit in name order, enabled or not, then started |
| Systemd.GroupPartsAt | packaging/linux/deb/template_custom_dh_installsystemd_postinst.go:45-56 | in a mixed group each unit, in name order, has the template for its flag and then the one that starts it |
| Systemd.AppendedIffWritten | packaging/linux/deb/debroot.go:152-160 | the special case of `Systemd.AppendedExactly` for one run: when units of one name agree, the rules append the fragment exactly when Debroot writes it, though each groups the units in an order of its own |
| Systemd.AppendedExactly | packaging/linux/deb/debroot.go:152-160 | for all units: it does so in every run if and only if some base name is mixed whichever units overwrite which, or none can be |
| Systemd.SatisfiedExactly | packaging/linux/deb/template_rules.go:139-194 | the special case of `Systemd.AlwaysSatisfiedExactly` for one run: when units of one name agree, in every run a unit ends up enabled exactly as asked, unless it is an enabled one without a dot whose base name has disabled units |
| Systemd.DotlessUnit | packaging/linux/deb/template_rules.go:139-194 | as `foo` beside a disabled `foo.socket` is |
| Systemd.AlwaysSatisfiedExactly | packaging/linux/deb/template_rules.go:139-194 | for all units: one ends up as asked in every run if and only if, enabled, no unit of its base name is disabled, or its dotted name is only ever enabled and another name surely disabled; or, disabled, a name of its base is surely disabled, its own if dotted |
| Systemd.EnabledExactly | packaging/linux/deb/template_rules.go:139-194 | with dotted names, all units end up as asked if and only if no two units of one name ask for different things |
| Systemd.DistinctNamesEnabled | packaging/linux/deb/template_custom_dh_installsystemd_postinst.go:32-59 | with distinct dotted names, a unit is enabled by debhelper or the fragment if and only if its flag is set |
| Routing.PrefixesSortByLength | frontend/mux.go:329-345 | prefixes of one string are sorted by length, and equally long ones are equal |
| Routing.BuildMux.Add | frontend/mux.go:79-94 | the route maps to the handler; the default is the last one registered as such |
| Routing.BuildMux.LookupTarget | frontend/mux.go:312-348 | the exact route, else the default for the empty target, else the longest route the target lies below, whatever order the map yields |
| Routing.LookupUnique | frontend/mux.go:312-348 | that result is unique |
| Routing.SocketMux.constructor | sessionutil/socketprovider/mux.go:36-67 | the last registration of each prefix counts, and the list is in descending order |
| Routing.SocketMux.GetHandler | sessionutil/socketprovider/mux.go:78-94 | the exact id, else the longest registered prefix, else the default, else the handler that refuses |
| Routing.ChoiceUnique | sessionutil/socketprovider/mux.go:78-94 | that result is unique |
| Routing.RegistrationOrder | sessionutil/socketprovider/mux.go:36-43 | registering two different prefixes in either order leaves the same table |
| NestedRouting.TargetRejoins | frontend/mux.go:351-415 | at any depth, the matched patterns and the target the last handler sees rejoin to the original target, and a not-found error names it |
| NestedRouting.HandlerReached | frontend/mux.go:351-415 | at any depth the handler that runs, and the target it sees, are exactly those that following the exact, default or longest routes leads to |
| NestedRouting.TargetKeySetOnce | frontend/mux.go:221-237 | `dalec.target` arrives as set from outside, or else as the first non-empty match; later matches never change it |
| NestedRouting.AvailableRoutes | frontend/mux.go:457-472 | a not-found error offers the routes of the router that refused, each with its full path |
| NestedRouting.NotFoundNamesTarget | frontend/mux.go:457-472 | once a level has matched, the error names the original target if and only if that target is clean and, if it starts with a slash, was not matched by the empty route |
| NestedRouting.LeadingSlashLost | frontend/mux.go:457-472 | a router whose empty route leads to a router without routes names another target for `/x` |
| Commands.ValidExactly | source_image.go:156-165 | for every extract path that leads somewhere and every destination: accepted exactly when it is not `/`, its source is valid, and it does not both start as the extract path does and lie at or below it |
| Commands.OutsideExactly | source_image.go:156-165 | so an accepted mount lies outside exactly when it starts as the extract path does, or would also be accepted with both written absolute; for every extract path but the root |
| Commands.MissedMounts | source_image.go:156-165 | `/usr/x` and `../usr/x` under `usr`, and `usr/x` under `/usr`, are accepted and lie below |
| Commands.RunStages | source_image.go:279-320 | the loop computes the root and output states threaded through all steps, the first step's root being the output when the root is extracted |
| Commands.RunCommand | source_image.go:250-323 | for every extract path: the error state exactly when some command or step mount is rejected, else the output of all steps |
| Commands.CommandRuns | source_image.go:250-323 | each step sees at every path the output where that shows, else the deepest and last mount of the command or of its own above the path, else the image; what it leaves goes to the output or the image, and is lost in a mount; the steps start from the image and an empty output |
| Commands.ThreadedIsAlone | source_image.go:250-323 | for every extract path but the root, any number of steps, whatever they do, and no mount strictly below it that validation misses: the output is what running them on one file system, whose extract path starts empty, leaves at that path |
| Commands.AloneExactly | source_image.go:250-323 | for all images and steps the two agree if and only if no mount of any step is strictly below the extract path |
| Commands.InsideDiffers | source_image.go:161-163 | with a mount below the extract path in any step there are steps that tell the two apart |
| Commands.OutputIsRoot | source_image.go:279-320 | the output mounted over the root, as later steps have it, is the root they see and change |
| Commands.RootIsAlone | source_image.go:250-323 | extracting the root, with no mount leading to the root itself after the first step, the output is what running all steps on one file system leaves |
| Commands.RootExactly | source_image.go:250-323 | for all images and steps the two agree if and only if there is no such mount |
| Sources.ValidateVariants | source_generated.go:13-41 | counting decides between no variant, one, and several |
| Sources.ValidateCommand | source_image.go:39-70 | the errors of steps and mounts, with a duplicate reported for every destination met before |
| Sources.ValidateSource | source.go:424-450 | the errors of the whole tree below a source; what is below a source without exactly one variant is not looked at |
| SourceLaws.ReportedIsWrong | source.go:424-450 | a problem is reported if and only if the source, or one it is built from or has mounted, has it, told for every problem from the tree |
| SourceLaws.AcceptedIsRight | source.go:424-450 | so a source is accepted if and only if nothing is wrong with it |
| Sources.FillCommandInPlace | source_image.go:334-344 | fills in every mount in turn, or panics exactly when one of them leads to a source without a variant |
| Sources.FillInPlace | source.go:599-601 | the same for a source, through build sources, commands, generators and inline files |
| Sources.FillGeneratorsInPlace | source_git.go:132-149 | every gomod generator without an entry for the host gets the source's authentication |
| Sources.FillGeneratorsTwice | source.go:319-358 | filling generators twice is filling them once, and their validation does not change |
| Sources.FillTwice | source.go:599-601 | filling any source twice is filling it once, at every depth |
| SourceLaws.FillIsFilled | source.go:599-601 | filling gives every default its value at every depth, such as 0644, `context` or the token, header or SSH id of the source, and changes nothing else |
| Sources.FillChanges | source_inline.go:355-379 | filling leaves a source as it is if and only if nothing in its tree was left to a default, so nothing given explicitly is overwritten |
| Sources.FilledComplete | source.go:599-601 | after filling nothing in the tree is left to a default |
| Sources.ProblemsKept | source.go:424-450 | validation finds exactly the same after filling |
| Sources.CountedSafe | source_generated.go:43-63 | where validation counts one variant everywhere, filling never reaches the panic |
| Sources.FillKeepsSafe | source_generated.go:43-63 | filling does not change whether it panics |
| Specs.ErrorIsOnly | load.go:783-811 | of joined errors exactly one matches; of any other error, some part does |
| Specs.BaseAcceptedExactly | image.go:148-207 | a base is accepted if and only if it is an image with nothing wrong, or with its path missing, whatever else is wrong then |
| Specs.MigratedBaseAccepted | image.go:172-195 | the base that `base` is migrated to is accepted and filled in without a panic |
| Specs.FillImageConfig | image.go:172-195 | moves `base` to `bases`, fills each and normalises the symlinks, or panics exactly when a base does |
| Specs.ConfigKept | image.go:148-195 | an accepted image is still accepted after filling, which done twice is done once |
| Specs.FillRepoInPlace | deps.go:305-333 | environments default to all three, all sources are filled, and HTTP keys get their permissions |
| Specs.RepoKept | deps.go:305-370 | filling a repository twice is filling it once, and its validation does not change |
| Specs.Validate | load.go:520-579 | panics exactly when a patch names a source without a variant; else accepts exactly the acceptable specs |
| SpecLaws.PatchRule | load.go:581-597 | a patch is accepted exactly when it names a path in a source that is a directory, and none in one that is a file |
| Specs.Spec.FillDefaults | load.go:491-518 | fills in the whole spec, going through the image twice, or panics exactly when something it comes to lacks a variant |
| Specs.FillSpecTwice | load.go:491-518 | filling a spec twice is filling it once |
| SpecLaws.SpecIsFilled | load.go:491-518 | filling a spec gives every default its value, such as a strip of 1, the three environments or the moved base, and changes nothing else |
| Specs.AcceptedKept | load.go:491-579 | a spec that is accepted is still accepted with its defaults filled in |
| Specs.SafeExactly | load.go:491-579 | on an accepted spec, filling gets through if and only if no base image of the spec or a target leads to a source without a variant |
| Specs.PromisedSafe | image.go:148-170 | with bases that lack nothing but their path, an accepted spec is filled in without a panic |
| Specs.AcceptedPanics | load.go:783-811 | there is an accepted spec on which filling panics |
| Symlinks.ValidateSymlinks | load.go:646-721 | accepts if and only if sources are non-empty, exactly one of path and paths is set, no new path is empty, and all are pairwise distinct, for every map order |
| Symlinks.ShortcutSound | load.go:689-691 | a corollary: fewer than two pairs cannot have a duplicate |
| Symlinks.PostInstall.NormalizeSymlinks | image.go:229-245 | every `path` becomes the last of `paths`, in place, for every map order |
| Symlinks.NormalizedSame | image.go:229-245 | the link relation is the same, acceptable links stay acceptable, and a second time changes nothing |
| Symlinks.PostInstall.InstallScript | helpers.go:302-321 | the commands by sorted source and sorted new path; the lists are left sorted |
| SymlinkScripts.LinkWritten | helpers.go:308-321 | every link has its commands one after another: directory, link, then owner and group if they are named |
| SymlinkScripts.OnlyLinksWritten | helpers.go:302-321 | the script has no other commands |
| SymlinkScripts.ScriptExactly | helpers.go:302-321 | run from any tree of directories, files and links, the script leaves exactly the links of the relation, and what was there as it was, if and only if their places are clear |
| SymlinkScripts.AcceptedLinksMade | helpers.go:302-321 | accepted links that do not climb out of the image, normalised, sorted and run in any image, become exactly the relation if and only if no new path leads to something that is there or to a directory made on the way, nothing but directories is on the way, and no two lead to one place; links of the image that lead to directories are followed |
| SymlinkScripts.NamedClear | helpers.go:302-321 | a corollary for new paths that end in a name: none is a directory of the image, no file or link of the image is at or above one, and none is at or above another |
| SymlinkScripts.SamePlaceTwice | load.go:646-721 | `/a` and `a` are accepted and not made |
| SymlinkScripts.NestedLinks | load.go:646-721 | `/a/b` and `/a` are accepted and not made |
| SymlinkScripts.LandsInside | helpers.go:311-314 | the script of such a pair gets through, with the second link inside the directory made for the first |
| SymlinkScripts.RootLink | load.go:646-721 | `/` is accepted and not made |
| SymlinkScripts.FileThere | helpers.go:311-314 | a new path where the image has a file or link is accepted and not made |
| SymlinkScripts.FileOnTheWay | helpers.go:311-314 | so is one below a file of the image |
| GomodAuth.ProcessBuildArgs | generator_gomod.go:24-45 | for every way the range may go, the map is the one its visits lead to, and an error is returned exactly when an expansion failed |
| GomodAuth.EveryRunRenames | generator_gomod.go:24-45 | when expanding twice changes nothing and hosts that become one agree, every run ends with exactly the expanded hosts |
| GomodAuth.FurtherExpansionLoses | generator_gomod.go:24-45 | when a host becomes one that expands further, some run loses it |
| GomodAuth.RenamesExactly | generator_gomod.go:24-45 | every run ends with exactly the expanded hosts if and only if those two conditions hold |
| GitCredential.ReadPayload | cmd/frontend/git_credential_helper.go:139-188 | the fields set by the lines of the text in turn, up to a line the scanner cannot hold; an improper line or unknown key exits |
| GitCredentialLaws.TableNames | cmd/frontend/git_credential_helper.go:139-188 | each key of git's format, by its text, is read and written as its field |
| GitCredentialLaws.FieldsRead | cmd/frontend/git_credential_helper.go:139-188 | lines that fit are read: the last line of a scalar counts, those of an array in turn |
| GitCredentialLaws.TwoLinesRead | cmd/frontend/git_credential_helper.go:139-188 | the text of two lines sets both fields, as `protocol=https` and `host=h` do (`GitCredentialLaws.HostIsSet`) |
| GitCredentialLaws.CarriageReturnDropped | cmd/frontend/git_credential_helper.go:139-188 | a carriage return before the newline is not part of the value |
| GitCredentialLaws.ImproperExits | cmd/frontend/git_credential_helper.go:139-188 | a line without `=` or with another key ends the helper |
| GitCredential.PrintPayload | cmd/frontend/git_credential_helper.go:190-223 | a line for every non-empty field but the host, and for every non-empty list entry, in the fixed order |
| GitCredentialLaws.PrintedInOrder | cmd/frontend/git_credential_helper.go:190-223 | the text is, key by key in the fixed order, a line for every value that is not empty |
| GitCredential.StoredErased | cmd/frontend/git_credential_helper.go:139-223 | storing what is printed of a payload gives the payload without its host and empty list entries |
| GitCredential.RoundTripExactly | cmd/frontend/git_credential_helper.go:139-223 | reading a printed payload gives that if and only if every printed value has no newline, no carriage return at its end, and fits the scanner's line |
| GitCredential.LongPassword | cmd/frontend/git_credential_helper.go:139-188 | a password of 65536 bytes does not read back |
| GitCredential.PrintReadPrint | cmd/frontend/git_credential_helper.go:139-223 | then printing what was read prints the same text |
| GitCredential.TokenReadsBack | cmd/frontend/git_credential_helper.go:250-259 | a token response reads back, with a credential that decodes to the token, if and only if the token is not too long for a line |
| GitCredentialLaws.TokenIsBasic | cmd/frontend/git_credential_helper.go:250-259 | the credential starts with `x-access-token:` and its type is basic |
| GitCredential.HeaderReadsBack | cmd/frontend/git_credential_helper.go:237-248 | a header response reads back if and only if both parts of the secret fit their lines; with a newline at the end they do not |
| Base64.RoundTrip | cmd/frontend/git_credential_helper.go:256 | decoding undoes encoding, section 4 of RFC 4648 |
| Base64.EncodePlain | cmd/frontend/git_credential_helper.go:256 | encoded text has no newline or other control character |
| Base64.DigitsInTable | cmd/frontend/git_credential_helper.go:256 | the digits are those of table 1 of RFC 4648 |
| Base64.BlockIsNumber | cmd/frontend/git_credential_helper.go:256 | three bytes are written as the four digits of one 24-bit number |
| Base64.PaddedBlocks | cmd/frontend/git_credential_helper.go:256 | one or two bytes as if zeros followed, padded |
| Base64.EncodeThree | cmd/frontend/git_credential_helper.go:256 | longer text three bytes at a time |
| Streams.StreamReader.Read | sessionutil/socketprovider/io.go:26-43 | hands out the front of the buffer, or of the next message, and keeps the rest: what was received is always what was delivered followed by the buffer |
| Streams.OutputIsReceived | sessionutil/socketprovider/io.go:26-43 | over any reads of any sizes, the output followed by the leftover is the concatenation of the messages received |
| Streams.ReadProgresses | sessionutil/socketprovider/io.go:26-43 | a corollary: a read with room that does not fail hands out something, unless it met an empty message |
| Streams.StateRefFile.ReadAt | frontend/pkg/bkfs/bkfs.go:134-160 | the bytes at the offset, the rest of the buffer untouched, and the error of each case |
| Streams.StateRefFile.Read | frontend/pkg/bkfs/bkfs.go:163-168 | the same at the file's own offset, which moves by what was read |
| Streams.RangeInside | frontend/pkg/bkfs/bkfs.go:134-160 | a corollary: the end of the file is reported if and only if the offset is there or the read came up short |
| Streams.ReadsAreContent | frontend/pkg/bkfs/bkfs.go:163-168 | over any calls of any sizes, failing or not, the bytes handed out are exactly those of the file up to the offset |
| Streams.EofAtEnd | frontend/pkg/bkfs/bkfs.go:134-168 | once the end is reported all of the file was handed out, and every later call reports it |

## Left out

- BuildKit itself: LLB construction, the solver, the gateway and gRPC. Trees, file systems and build steps are any values and functions.
- Includes, excludes and sub-paths applied to a patch source before it is read: a patch file is whatever reading the given place of the tree gives.
- The lines of spec files, scripts and rules are records whose paths, names, constraints and requirements are text; the fixed words around them are not, except in the dependency printers, where the whole text is modelled.
- Commands.ThreadedIsAlone: leaves out commands with a mount strictly below the extract path, on which it is false (`Commands.AloneExactly`); destinations are taken from the root of the file system.
- Commands.RootIsAlone: leaves out mounts that lead to the root after the first step, on which it is false (`Commands.RootExactly`).
- RpmFilesAgree.InstallIsFiles: leaves out artifact names with `*`, whose expansion depends on the build; it is about the places the commands name, and `RpmTrees.InstallDelivers` about where things end up.
- RpmTrees.InstallDelivers: is necessary as well as sufficient only when no artifact is a directory, because what a copied directory already holds is not known. Artifacts have names, and links end in one, without a macro; elsewhere a component that has a macro expands to any names. Links the package makes are not followed: a directory made through one counts as a failure, since what goes there does not get to its place, and a link listed twice is taken not to lead to a directory.
- SymlinkScripts.AcceptedLinksMade: a link is made when it is where its path led in the image as it was, so the links the script makes are not followed: a directory made through one counts as a failure, since what goes there ends up elsewhere. New paths that climb out of the image are left out. Owners and groups are written but given no meaning.
- `%files` and `%install` of user and group ownership, and the RPM scriptlets for systemd.
- Dependencies written by the RPM `Requires` section for systemd, users and groups, and the `${shlibs:Depends}` and `${misc:Depends}` variables the Debian printer adds.
- Dependencies.DebDenotes: a well-formed list has versions and architectures of the characters both package managers allow in them, and names of the characters either allows; alternatives, qualifiers, build profiles, negated and wildcard architectures (section 7.1 of the Debian Policy Manual) are forms of Debian alone and are left out. RPM conditions do not nest.
- Systemd: what `dh_installsystemd` does with a base name is taken from the comments of the code: without `--no-enable` it enables every unit file whose text before its first dot is the base name, which includes `a.b.service` and files without a dot. Starting units is printed but not given a meaning. Every postinst template is taken to emit something.
- PipeListener: `closedCh` is never closed and so left out; a panic ends only the call, not the process; nothing is said about what must eventually happen.
- Routing: subrequests, target listing and the option maps that calls share.
- Specs.Validate: tests, build steps and caches, which filling in defaults does not touch, are not part of a spec here, and which errors are reported in which order is not modelled.
- Sources.ValidateSource: nested errors are taken apart, and the bad files of an inline directory count once.
- Sources.FillInPlace: the tree is a value, so sharing between the sources of a spec through pointers is not captured.
- Shell expansion, YAML decoding and source maps; `GomodAuth` takes the expansion of a host as a function.
- GitCredential.ReadPayload: text is bytes, one character each; reading the secret from disk and the choice of action are left out.
- Streams.StateRefFile.ReadAt: the size in a file's metadata is that of its contents.
- Simple selection between a target and the whole spec, distro constants, worker images, generators other than go modules, command line entry points, linters and tests: no property that spans operations.
