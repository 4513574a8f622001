# MounTA in Dafny

MounTA is a daemon that mounts the volumes of USB mass storage devices as they are
plugged in, and tells others about it over D-Bus. It reacts to events which come in any
order and more than once: links to block devices appear and vanish, or, when it only
watches, mountpoints appear and vanish. This project models its event handlers, the
registry of devices and volumes, the objects that clean up behind themselves, the
signals, and the text scanners the registry relies on, and proves what holds over whole
runs.

The model has two layers.

- **Values.** Directories, mountpoints, volumes, devices, the registry and the whole
  daemon are values; what a handler does is a function from state to state
  (`AutoDir`, `Devices`, `DeviceManager`, `Automounter`). `Automounter.Step` is one event
  and `Automounter.IsTrace` a whole run. The theorems about runs are proved on these
  functions.
- **Objects.** The classes of the program, with the fields they update in place
  (`SystemCalls`, `DirectoryObjects`, `DeviceObjects`, `RegistryObjects`, `CoreObjects`,
  `DbusHandlers`). Each method is proved to do exactly what the function says, so that
  `CoreObjects.Core.Handle` takes the step that the theorems speak about. The assertions
  in the source about the states of devices and volumes are preconditions there, proved
  at every call.

All answers of the operating system and of external tools are fields of
`Platform.Oracle`; each event brings its own oracle unless a theorem says otherwise. The
file system is the set of directories below the working directory, the mounts, and the
links in the link directory (`Platform.Fs`). Emitted signals are kept in a log.

Searching for a device ID never ends when all 999 are in use (`RoundRobin.SearchEndsIff`).
A state that has come to this is `stuck` and stays as it is; the methods of the objects
require that the step does not get stuck. `EnoughIds.NeverStuck` gives a condition
under which no run does.

## Where the code and its comments differ

- Comments call volume indices below -1 invalid but index 0 possible; the code produces
  -1 and positive numbers only (`RegistryInvariant.ValidIndex`).
- A number in a device name that does not fit into an int is meant to be refused, but the
  range check comes after the successful return (src/devices_util.c:70-73).
  `Names.NumberRefusedIff` says exactly which numbers are refused, and numbers are read
  back exactly if they fit (`Names.VolumeNumberRoundTrip`); 4294967296 is read as 0, which
  stands for a whole device, and 4294967297 as partition 1 (`Names.HugeNumbersTaken`).
- An empty UUID of higher rank spoils a good one found before
  (src/devices_os.cc:221-223); `Udev.BestIsChosen` has the exact condition, and
  `Udev.SpoiledExists` an output for which this happens.
- A device that is known because of one of its partitions is never searched for a volume
  of its own (src/device_manager.cc:313-322), and a volume whose index is taken is refused
  (src/devices.cc:80-89), so that the order of reports may matter;
  `OrderMatters.AllOrdersAgreeIff` has the exact condition, by
  `OrderMatters.OrderStillMatters` the difference stays until the device is removed, and
  `OrderMatters.ConflictsExist` gives links for which it arises.
- A working directory that cannot be created is never tried again
  (src/devices.cc:106-110, src/automounter.cc:296-297);
  `FailedContainers.FailedContainerIsFinal`.
- A key passes for a name if it is a beginning of it (src/devices_os.cc:204), even an empty
  one: the lines "E: ID=5" and "E: =5" set a UUID (`Udev.ShortKeysTaken`).
  `Udev.TakenByNameIff` says exactly which keys are taken for what their names say, and
  `Udev.AssignsIff` which ones set label and type.

## Model

| member | source | states |
|---|---|---|
| `Resources.Conservation` | src/devices.cc:184-252 | After every event of a managed run, if directories and mounts can be given back, they are exactly the ones live devices and volumes describe; if links can, so are they, besides foreign links |
| `Resources.LeaksAreContained` | src/devices.cc:55-65 | In managed runs, whatever fails, every directory and mount lies in the container of an ID that has been in use, and every link that is not foreign leads into one |
| `Leftovers.AlwaysTidy` | src/autodir.cc:71-96 | In managed runs, whatever fails, nothing is mounted on a directory that is gone, and every directory is in an existing container |
| `Leftovers.RemovalSweeps` | src/devices.cc:38-65 | A directory that is left in the container of a removed device is still mounted on, or not empty, or the operating system has refused to remove it |
| `Resources.NothingMissing` | src/automounter.cc:159-246 | In managed runs, whatever fails, every directory, mount and link that a live object describes exists and belongs to it |
| `Resources.FailedMountCleansUp` | src/automounter.cc:226-232 | An attempt at mounting that makes the volume unusable changes nothing but that the mountpoint directory may stay, and nothing at all if directories and mounts can be given back |
| `Resources.NoSharing` | src/devices.cc:189-207 | Over all managed runs no two mounted volumes share a mountpoint or a link, and each is mounted inside the container of its own device |
| `Resources.DeferredMountingDrains` | src/automounter.cc:265-313 | Between events volumes are mounted only on accepted devices with a working directory, nothing waits on such a device, and probed devices are empty |
| `Resources.RemoveDevLocal` | src/device_manager.cc:240-261 | Removing a device touches nothing of other devices, and leaves behind no directories and mounts, and no links, if these can be given back |
| `Signals.SignalsAreExact` | src/dbus_handlers.cc:48-78 | In any mix of modes, replaying the signals gives exactly the volumes GetAll lists and exactly those listed devices whose working directory exists, and signals about removals carry the UUID and the path the device was announced with |
| `Signals.SignalsAreOrderly` | src/automounter.cc:302-339 | In managed runs the signals of a device come as device, volumes once each, will-be-removed, removed; a removal is announced exactly if the device was |
| `Signals.ReportsTellInOrder` | src/automounter.cc:235-313 | A report of a link announces at most the device it belongs to, and then volumes of that device in ascending order |
| `Signals.RemoveDevTold` | src/automounter.cc:322-338 | A removal makes listeners forget the device and its volumes and nothing else |
| `DeviceStates.StatesFollowReports` | src/automounter.cc:138-311 | In managed runs a device is unexamined as long as its own link has not been reported, broken exactly if it was no USB device then, waiting exactly if it was one and has no volume, accepted exactly if it has one, and never rejected; name, UUID and port are those found when its link was reported |
| `DeviceStates.AcceptedByName` | src/automounter.cc:80-146 | In any mode a device that has been filtered is accepted exactly if its name begins with "usb-" or "ata-" |
| `WatchedMountpoints.MountpointsAreShown` | src/automounter.cc:341-379 | In any mode, if a new mountpoint is there, its links lead to a device and a volume on it, and the device is on USB with an allowed name, the device is accepted and announced with the mountpoint for a directory, and the volume, if waiting, becomes mounted there and is announced; otherwise nothing is announced |
| `MountLinks.LinksAreNamed` | src/devices.cc:191-206 | When a volume gets mounted in a managed run, it is linked to from the first unused name among the label in the link directory, the same with "-2", with "-2-3" and so on, unless there is no such directory or the link is refused |
| `MountLinks.LinksAreCandidates` | src/devices.cc:191-206 | At any time of a managed run the link to a mounted volume is one of these names for its label |
| `Scenarios.StickInManagedMode` | src/automounter.cc:248-339 | All that happens in registry, file system and signals when any stick with one partition is plugged in and out |
| `Scenarios.StickInWatchMode` | src/automounter.cc:341-392 | All that happens in watch mode when the mountpoint of such a stick appears and vanishes |
| `Scenarios.SticksExist` | src/automounter.cc:248-392 | There are sticks and answers of the operating system as these results ask for |
| `RegistryInvariant.RegistryAlwaysOk` | src/device_manager.cc:263-382 | At any time of any run: keys are the IDs, IDs are in 1..999, links unique, volumes at their own valid indices, block devices unique per device, references one plus the volumes |
| `RegistryInvariant.CycleIsBroken` | src/device_manager.cc:253-258 | Erasing a device would not destroy it while it has volumes; after they are dropped the last reference goes and the destructor cleans up |
| `OrderIndependence.RunsRefineSets` | src/automounter.cc:248-314 | With a steady oracle, at any time of any sequence of reports, repeats and removals, devices and volumes with their states are what a definition by sets says of the links still reported, unless links in conflict are reported at the same time; everything may fail in runs with at most 999 introductions of devices; in longer ones directories and mounts have to go back, and there may be 999 devices at a time |
| `OrderIndependence.OrderDoesNotMatter` | src/device_manager.cc:128-177 | Whenever two such runs have left the same links reported, they have the same devices and volumes in the same states, IDs aside |
| `Vacancy.LeftoversStayBehind` | src/automounter.cc:159-246 | In a managed run with at most 999 introductions of devices, whatever fails and whatever is left behind by removals, no directory is in the way of a container or mountpoint still to be made, for known devices and for those to come |
| `OrderMatters.AllOrdersAgreeIff` | src/device_manager.cc:303-382 | For any set of links to at most 999 devices, all orders of reporting them lead to the same devices and volumes exactly if no two of them are in conflict |
| `OrderMatters.ConflictsExist` | src/device_manager.cc:303-382 | A device and its partition with volumes, and two partitions with the same number, are acceptable links in conflict |
| `OrderMatters.OrderMattersIff` | src/device_manager.cc:303-382 | The order of the first two reports makes a difference exactly if both links have a volume on the same device and one is the device itself, or both are different block devices with the same index |
| `OrderMatters.OrderStillMatters` | src/device_manager.cc:303-382 | Such a difference, whatever has been before, stays through any managed events that do not remove the device, with any answers |
| `OrderIndependence.RemovedInSync` | src/device_manager.cc:230-261 | Removing a root takes its device and all links that belong to it out of account, and no others |
| `RegistryInvariant.RemovedRegistry` | src/device_manager.cc:230-261 | Removing a root deletes exactly the device of that name; all others stay as they are |
| `EnoughIds.NeverStuck` | src/device_manager.cc:269-278 | In any mix of modes and with any answers, the daemon finds a free ID as long as at no time more than 999 devices have been told of and not been removed, and it knows no other devices |
| `Duplicates.DuplicatesAreHarmless` | src/mounta.cc:453-457 | Reporting a link again, without removal of its root in between and with the same answers about the link, changes neither registry, ID cursor, file system nor signals |
| `FailedContainers.FailedContainerIsFinal` | src/devices.cc:106-110 | An accepted device whose working directory could not be created stays that way until removal, and its volumes stay pending |
| `WatchMode.WatchingNeverInterferes` | src/automounter.cc:341-392 | Every mountpoint event, destructors included, leaves any file system, with the watched mountpoints in it and changed by others between events, as it found it, and does the same if every change it might try were refused |
| `Automounter.ProbingLeavesNoTrace` | src/device_manager.cc:183-190 | The object through which a mountpoint is looked at stores nothing, and so its destructors leave the mountpoint alone |
| `Automounter.RunHasTrace` | src/automounter.cc:248-392 | Every sequence of events makes a run, so that no theorem about runs is empty |
| `RoundRobin.SearchEndsIff` | src/device_manager.cc:269-278 | The search for an ID comes to an unused one exactly if there is one |
| `RoundRobin.IdsAre` | src/devices.hh:49-62 | IDs are the numbers from 1 to 999 |
| `RoundRobin.PassedIdsAreInUse` | src/devices.hh:56-62 | All IDs between the cursor and the new ID, cyclically, are in use |
| `RoundRobin.IdsAreReusedInTurn` | src/devices.hh:49-62 | Between two issues of the same ID, in any mix of modes, every other ID is in use at some time |
| `Paths.MountPathInjective` | src/devices.cc:167-170 | Mountpoint paths are equal exactly if device ID and volume index are |
| `Paths.OwnDisjoint` | src/automounter.cc:304-307 | No path belongs to the containers of two devices |
| `Names.RootNameIff` | src/device_manager.cc:94-108 | A non-empty root comes exactly from links of the form root, "-part", digits |
| `Names.RootOfPartitionLink` | src/device_manager.cc:94-108 | The root of a root with "-part" and a printed number is that root |
| `Names.MkRootDevlinkName` | src/device_manager.cc:94-108 | Scanning from the last hyphen finds the root of a partition link, "" for all other links |
| `Names.IsLinkToPartition` | src/device_manager.cc:71-92 | Tells exactly whether "part" and a number follow the hyphen |
| `Names.VolumeNumberRoundTrip` | src/devices_util.c:35-80 | A printed number behind a base name is read back exactly if it fits into an int and the base has two characters, or is one that strtoul() passes over; the base alone reads as 0 exactly if it has two characters |
| `Names.NumberRefusedIff` | src/devices_util.c:51-80 | A number is refused exactly if it does not fit into an unsigned long or its lower 32 bits are negative, with the sign turned around behind a minus, and always behind other single characters |
| `Names.HugeNumbersTaken` | src/devices_util.c:67-73 | Behind a proper base name, 4294967296 is read as 0 and 4294967297 as 1 |
| `Names.FindTrailingNumber` | src/devices_util.c:35-49 | Finds where the trailing digits start; as the first character is never looked at, they start at index 0, or at 2 or later |
| `Names.DevnameGetVolumeNumber` | src/devices_util.c:51-80 | Volume number of a block device with conversion through a 64-bit unsigned long to int |
| `Names.AcceptableIff` | src/automounter.cc:83-133 | A link is accepted exactly if the last part of its name begins with "usb-" or "ata-" and does not end in ".tmp-b", digits, ":", digits; for display names only the beginning counts |
| `Names.IsDeviceNameAcceptable` | src/automounter.cc:83-133 | Accepts exactly names with an allowed prefix that are not temporary links of the form ".tmp-b", digits, ":", digits at the end |
| `Udev.BestIsChosen` | src/devices_os.cc:195-278 | The rank chosen is the best offered with a value; the UUID is the first of it exactly if no empty value of higher rank follows |
| `Udev.SpoiledExists` | src/devices_os.cc:221-223 | An empty UUID of the file system behind that of the partition leaves a volume without any |
| `Udev.BestExists` | src/devices_os.cc:195-278 | There is a best UUID exactly if a value of some rank is offered |
| `Udev.BestRankWins` | src/devices_os.cc:195-278 | Without empty values the choice is the first UUID of the best rank, regardless of the order between ranks |
| `Udev.UuidOfVolume` | src/devices_os.cc:408-427 | A partition never gets the UUID of the partition table; a made up one is used exactly if nothing better is offered |
| `Udev.TakenByNameIff` | src/devices_os.cc:195-278 | An assignment is taken for what its key says exactly if the key is one of the five names looked for or a beginning of none of them |
| `Udev.AssignsIff` | src/devices_os.cc:400-405 | Label and type are set exactly by keys from "ID_FS_L" to "ID_FS_LABEL" and from "ID_FS_T" to "ID_FS_TYPE" |
| `Udev.ShortKeyPasses` | src/devices_os.cc:204-223 | Every proper beginning of the name of the UUID of the partition table passes for it, with any value |
| `Udev.ShortKeysTaken` | src/devices_os.cc:204-223 | The lines "E: ID=5" and "E: =5" each make "5" the UUID of a volume |
| `Udev.TryParseUuid` | src/devices_os.cc:195-278 | Classifies one assignment and takes its UUID over only if of better rank |
| `Udev.ParseVolumeInfo` | src/devices_os.cc:359-432 | Result of scanning any output: chosen UUID, label and type assigned last, success exactly if UUID and type are not empty |
| `Udev.ParseDeviceInfo` | src/devices_os.cc:280-332 | Success exactly if there are device paths, all with a USB port, and the best UUID is not spoiled; the port is that of the last path, the UUID the first one of best rank, that of the partition table included, and made up exactly if none is offered |
| `Udev.UuidOfDevice` | src/devices_os.cc:313-327 | Choosing among all UUIDs offered gives that UUID for whole devices, and an empty one exactly if the best is spoiled |
| `Udev.PortBeforeHost` | src/devices_os.cc:102-137 | The port is what precedes the first component "host" with a digit, below "/sys" |
| `Udev.LastValueIs` | src/devices_os.cc:402-405 | Of several labels or types the one assigned last counts |
| `Udev.InfoLineIff` | src/devices_os.cc:370-385 | Lines with contents are a character, a colon, a space and something |
| `Udev.ParseUsbDeviceId` | src/devices_os.cc:102-137 | Finds the path before the first host component, the only port there is, and fails exactly if there is none |
| `Udev.LinesPartition` | src/devices_os.cc:155-163 | Lines cover the output without loss, and newlines only end lines |
| `LinkLines.ParseDeviceLinkFromLine` | src/devices_os.cc:550-593 | Takes exactly the first by-id token of the current line, never beyond the newline, and goes on to the next line unless too little is left |
| `LinkLines.LinkIsFound` | src/devices_os.cc:550-593 | A token in "/dev/disk/by-id/" at the beginning of a line is its link |
| `LinkLines.GetDeviceLinks` | src/devices_os.cc:609-626 | The links are the first tokens of lines one and two, or both empty if either is |
| `LinkLines.SkipToken` | src/devices_os.cc:530-548 | Skips to the end of a token and over a newline behind it, and tells the end of the line |
| `LinkLines.GetDeviceAndVolumeDevnames` | src/devices_os.cc:516-527 | Volume name is the output without newlines at the end, device name that without digits at the end; together with the digits it restores the volume name |
| `LinkLines.StrippingUndoesPrinting` | src/devices_os.cc:516-527 | Stripping a base name with a printed number and a newline gives back volume and base name; then the number is read back exactly if it fits into an int, and the base name is a whole device |
| `SystemCalls.System.RemoveResidualDirectories` | src/devices.cc:38-53 | Removing children one after the other removes exactly the removable ones |
| `AutoDir.MadeOnce` | src/autodir.cc:26-43 | Directories are made once and not from an empty path; a mount is made once, on a directory that was made |
| `AutoDir.CleanedInTime` | src/autodir.cc:71-96 | A cleanup removes an own, empty, unmounted directory exactly if one of 21 attempts succeeds, and nothing else |
| `AutoDir.CleanedOnce` | src/autodir.cc:158-178 | A cleanup forgets path, directory and mount, and destructors that run later do nothing |
| `AutoDir.ProbedAsIs` | src/autodir.cc:45-69 | Probing tells what is there and makes a note of it exactly if wanted |
| `Devices.EndsUnmounted` | src/devices.cc:233-237 | At the end of its life a volume has no mountpoint any more |
| `Devices.LinkForgottenIffGone` | src/devices.cc:233-247 | At the end of its life a volume forgets its link exactly if the link has been deleted |
| `Automounter.OpenContainerAgain` | src/devices.cc:96-111 | A device whose working directory is known already is announced without making one |
| `DirectoryObjects.Directory.Create` | src/autodir.cc:26-43 | Refines `AutoDir.CreateDir`: created once, never from an empty path |
| `DirectoryObjects.Directory.Cleanup` | src/autodir.cc:71-96 | Removes own directories in up to 21 attempts, leaves external ones alone, forgets the path |
| `DirectoryObjects.Mountpoint.Set` | src/autodir.cc:98-105 | Cleans up the old mountpoint and takes the new path |
| `DirectoryObjects.Mountpoint.Mount` | src/autodir.cc:125-156 | Mounts only onto an existing, unmounted directory and records success |
| `DirectoryObjects.Mountpoint.Cleanup` | src/autodir.cc:158-178 | Unmounts what was mounted, then removes the directory |
| `DirectoryObjects.Mountpoint.Probe` | src/autodir.cc:107-123 | Tells whether something is mounted on an existing directory, and takes note of directory and mount only if wanted |
| `DirectoryObjects.Directory.Probe` | src/autodir.cc:45-69 | Tells whether the directory exists, and takes note only if wanted |
| `DirectoryObjects.Mountpoint.Destroy` | src/autodir.hh:117 | The destructor unmounts what was mounted, and that of the directory removes it |
| `DeviceObjects.Volume.Mount` | src/devices.cc:184-211 | Mounts, then links from the first unused name in the growing sequence of candidates; the search ends |
| `DeviceObjects.Volume.MkMountpointDirectory` | src/devices.cc:162-173 | Creates the mountpoint named after the index inside the working directory of the device |
| `DeviceObjects.Volume.SetEolStateAndCleanup` | src/devices.cc:233-252 | End of life: mount, mountpoint and link go |
| `DeviceObjects.Device.DoProbe` | src/devices.cc:130-160 | A synthetic device becomes probed with port and UUID, or broken |
| `DeviceObjects.Device.LookupVolumeByDevname` | src/devices.cc:67-78 | The volume with the smallest index on that block device, null exactly if there is none |
| `DeviceObjects.Device.AddVolume` | src/devices.cc:80-89 | Adds a volume at its index unless taken; a refused volume gives up its reference |
| `DeviceObjects.Device.DropVolumes` | src/devices.cc:91-94 | Ends all volumes in order of index, each giving up its reference, nothing else of the device changes |
| `DeviceObjects.Device.MkWorkingDirectory` | src/devices.cc:96-111 | Creates the working directory unless the path is the one known already |
| `DeviceObjects.Device.Destroy` | src/devices.cc:55-65 | Removes residual directories, then the container, if it is the daemon's own |
| `RegistryObjects.AllDevices.AllocateId` | src/device_manager.cc:269-278 | Returns the first unused ID behind the cursor; ends because the cyclic distance to a free ID shrinks |
| `RegistryObjects.AllDevices.MkDevice` | src/device_manager.cc:263-294 | Adds a new device under a fresh ID; insertion cannot fail |
| `RegistryObjects.AllDevices.AddOrGetDevice` | src/device_manager.cc:303-332 | Known whole devices are returned untouched, new ones are created, probed and searched for volume information |
| `RegistryObjects.AllDevices.AddOrGetVolume` | src/device_manager.cc:334-382 | Creates the device of a partition if unknown, and its volume unless block device or index is known |
| `RegistryObjects.AllDevices.NewEntry` | src/device_manager.cc:128-177 | Refines `DeviceManager.NewEntry`: registry, cursor, device, volume and probing result |
| `RegistryObjects.AllDevices.NewEntryByMountpoint` | src/device_manager.cc:179-211 | Looks at the mountpoint through an object that is destroyed at once, registers both links and remembers the device for the mountpoint |
| `RegistryObjects.AllDevices.TakeVolumeDeviceForMountpoint` | src/device_manager.cc:213-228 | Returns and forgets the device of a mountpoint |
| `RegistryObjects.AllDevices.RemoveEntry` | src/device_manager.cc:230-261 | Announces, drops the volumes, announces again, erases, and destroys the device with its last reference |
| `CoreObjects.TryMountVolume` | src/automounter.cc:159-233 | Refines `Automounter.TryMount` in both modes and changes no other volume |
| `CoreObjects.MountAllPendingVolumes` | src/automounter.cc:235-246 | Mounts what is pending in order of index |
| `CoreObjects.Core.HandleNewDevice` | src/automounter.cc:248-314 | Refines `Automounter.HandleNewDevice` on the whole state |
| `CoreObjects.Core.HandleRemovedDevice` | src/automounter.cc:316-339 | Refines `Automounter.HandleRemovedDevice` on the whole state |
| `CoreObjects.Core.HandleNewUnmanagedMountpoint` | src/automounter.cc:341-379 | Refines `Automounter.HandleNewMountpoint` on the whole state |
| `CoreObjects.Core.HandleRemovedUnmanagedMountpoint` | src/automounter.cc:381-392 | Refines `Automounter.HandleRemovedMountpoint` on the whole state |
| `CoreObjects.Core.Handle` | src/automounter.cc:248-392 | Handling any event takes exactly the step of which runs are made |
| `DbusHandlers.GetAll` | src/dbus_handlers.cc:48-78 | The nested loops build the two lists that `DbusHandlers.Answer` defines |
| `DbusHandlers.AnswerIsSnapshot` | src/dbus_handlers.cc:48-78 | The lists contain exactly accepted devices and their mounted volumes, in order of ID and index, nothing twice |
| `DbusHandlers.AnswerTellsTheTruth` | src/dbus_handlers.cc:48-78 | At any time of any run GetAll lists, and listeners have been told of, exactly the mounted volumes of accepted devices, with index, label, mountpoint, device and UUID each in its place, and accepted devices with name, UUID, directory and port |
| `DbusHandlers.AnswerIsThere` | src/dbus_handlers.cc:63-78 | In managed runs the block device of a listed volume is mounted on the mountpoint told, which is the container of the device with the index, and the directories of announced devices exist |
| `DbusHandlers.AnswerIsHeard` | src/automounter.cc:55-78 | At any time of any run GetAll answers what the signals have told, except for devices without a working directory |

## Left out

- Core::shutdown (src/automounter.cc:411-426): it goes on with an iterator after erasing its element, and emits no signals.
- inotify, file descriptors, command line, daemonising and the main loop (src/fdevents.cc, src/mounta.cc): events are an arbitrary sequence.
- Names on D-Bus, the connection, and building GVariant values: a log of signals and two lists stand for them.
- Running mount, umount, mountpoint, udevadm and findmnt, temporary files, sleeps, and the three attempts at reading volume information (src/devices_os.cc:458-494): an oracle answers. The scanners are proved separately on any text.
- Messages to the system log, and out-of-memory branches.
- Mount options per file system (src/automounter.cc:38-53): a plain lookup.
- Parents of created directories: a directory is created as one step, and the parents it needs exist or belong to the working directory.
- Existence of a link name is membership in the set of names; dangling links are not told apart (src/devices.cc:192-197).
- Text is free of NUL characters and unsigned long has 64 bits; the read one beyond the end when a matching prefix ends the text (src/devices_os.cc:564) does not happen.
- Volume::set_removed and the rejection of single volumes: nothing in the source calls them during event handling.
- The order in which a map destroys its elements is taken to be ascending.
- Resources.Conservation: for managed runs only; what watch mode does to resources is `WatchMode.WatchingNeverInterferes`. A daemon is started in one of the two modes.
- OrderIndependence.RunsRefineSets: asks for an oracle that does not change and does not depend on IDs, and for directories and mounts that go back once IDs are used again, when leftovers get in the way; no links may be in conflict that are reported at the same time, for `OrderMatters.AllOrdersAgreeIff` shows that their order does matter.
