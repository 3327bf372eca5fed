# Kata shim configuration resolution, modelled in Dafny

This project models how the Kata Containers shim (`containerd-shim/kata/config.go`)
resolves its runtime configuration. It starts from compiled-in defaults. It then
looks for a TOML file in two fixed places, `/etc/kata-containers/configuration.toml`
first and `/usr/share/defaults/kata-containers/configuration.toml` second. If a
file is found, its `[hypervisor.qemu]`, `[runtime]` and `[factory]` tables are
laid over the defaults. Each hypervisor setting goes through its own rule: vCPU
counts bounded by the host and by QEMU, defaults for memory, PCI bridges and the
9p message size, a whitelist of block drivers, image and initrd mutually exclusive,
and a normalised list of machine accelerators.

Modules:

- `Wrappers`: `Option` and `Result`, used for Go's `(value, error)` returns.
- `GoInts`: `int32`/`uint32` and Go's wrapping conversions `int32(n)` and `uint32(n)`.
- `GoStrings`: `strings.Split`, `strings.Join` and `strings.Trim`, with their round trips.
- `Defaults` and `Sections` (in `sections.dfy`): the constants, the decoded tables and the error type.
- `Accelerators`: the `machineAccelerators` loop and an independent reference definition it is proved equal to.
- `HypervisorConfigs`: the per-field accessors and `newQemuHypervisorConfig`.
- `Discovery`: `getDefaultConfigFilePaths` and `getDefaultConfigFile`.
- `RuntimeConfiguration`: the `oci.RuntimeConfig` object as a class, `newFactoryConfig` and `updateRuntimeConfig`.
- `Loading`: `loadConfiguration`.

The outside world enters through two parameters:

- `Host` holds the host CPU count, `vc.MaxQemuVCPUs()` and path resolution.
- `Environment` holds a `Host`, reading a file, TOML decoding, and the set of
  network-model names that virtcontainers accepts.

Path resolution, reading and decoding are functions returning a `Result`.
Accepting a network model is a predicate.

## Model

| member | source | states |
|---|---|---|
| `GoInts.Int32Of` | containerd-shim/kata/config.go:223 | `int32(n)` keeps values in the int32 range and otherwise agrees with n modulo 2^32 |
| `GoInts.Uint32Of` | containerd-shim/kata/config.go:234 | `uint32(n)` keeps values in the uint32 range and otherwise agrees with n modulo 2^32 |
| `GoStrings.Split` | containerd-shim/kata/config.go:191 | there is always at least one piece, and no piece contains the separator |
| `GoStrings.TrimLeft` | containerd-shim/kata/config.go:195 | the result is the suffix after the longest prefix made only of cut characters |
| `GoStrings.TrimRight` | containerd-shim/kata/config.go:199 | the result is the prefix before the longest suffix made only of cut characters |
| `GoStrings.Trim` | containerd-shim/kata/config.go:195 | the result is a slice of the input with only cut characters outside it, and it does not start or end with a cut character |
| `GoStrings.TrimLeftSkips` | containerd-shim/kata/config.go:199 | a prefix made only of cut characters makes no difference to the left trim |
| `GoStrings.TrimRightSkips` | containerd-shim/kata/config.go:199 | a suffix made only of cut characters makes no difference to the right trim |
| `GoStrings.TrimPadded` | containerd-shim/kata/config.go:195 | a word whose ends are not cut characters, padded on both sides by cut characters only, trims to the word |
| `GoStrings.TrimEmpty` | containerd-shim/kata/config.go:195 | the result is empty exactly when every character of the input is in the cut set |
| `GoStrings.TrimAbsent` | containerd-shim/kata/config.go:195 | a character absent from the input is absent from the result, so trimming never introduces a comma |
| `GoStrings.JoinSplit` | containerd-shim/kata/config.go:191 | joining the pieces of a split gives back the original string |
| `GoStrings.SplitJoin` | containerd-shim/kata/config.go:191 | splitting a join of separator-free parts gives back the parts |
| `GoStrings.SplitWithoutSeparator` | containerd-shim/kata/config.go:191 | a string without the separator splits into itself alone |
| `GoStrings.SplitAppend` | containerd-shim/kata/config.go:191 | appending a separator and a separator-free tail adds that tail as one more piece |
| `Accelerators.Kept` | containerd-shim/kata/config.go:193-196 | the kept pieces are no more than the pieces, and none starts or ends with a blank |
| `Accelerators.KeptCommaFree` | containerd-shim/kata/config.go:191-196 | kept pieces of comma-free pieces are comma-free |
| `Accelerators.DropLeadingEmpty` | containerd-shim/kata/config.go:199 | removes exactly the leading empty entries |
| `Accelerators.DropTrailingEmpty` | containerd-shim/kata/config.go:199 | removes exactly the trailing empty entries |
| `Accelerators.AcceleratorEntries` | containerd-shim/kata/config.go:189-202 | the entries of the normalised list are comma-free, none starts or ends with a blank, and the first and last are non-empty |
| `Accelerators.MachineAccelerators` | containerd-shim/kata/config.go:189-202 | `machineAccelerators`'s loop returns the reference normalisation: the trimmed non-empty pieces, in order, without empty entries at either end, joined by commas |
| `Accelerators.AccumulateStep` | containerd-shim/kata/config.go:193-197 | one loop iteration appends the next kept piece and a comma to the accumulated string |
| `Accelerators.TrimTerminated` | containerd-shim/kata/config.go:199 | trimming commas from the accumulated string gives the join of the entries without empty entries at either end |
| `Accelerators.TrimLeftTerminated` | containerd-shim/kata/config.go:199 | cutting leading commas drops exactly the leading empty entries |
| `Accelerators.TrimRightTerminated` | containerd-shim/kata/config.go:199 | cutting trailing commas drops the trailing empty entries and the final comma |
| `Accelerators.NormalizedIsTrimmedAccumulation` | containerd-shim/kata/config.go:189-202 | the reference definition equals trimming commas off the string the loop accumulates |
| `Accelerators.NormalizedAcceleratorsOfEmpty` | containerd-shim/kata/config.go:189-202 | an unset accelerator list normalises to the empty string |
| `Accelerators.NormalizedAcceleratorsEdges` | containerd-shim/kata/config.go:199 | the normalised list never starts or ends with a comma |
| `Accelerators.NormalizedAcceleratorsSplit` | containerd-shim/kata/config.go:189-202 | the normalised list is empty exactly when there are no entries; otherwise splitting it again gives back exactly its entries, in the original order |
| `Accelerators.NormalizedAcceleratorsBlankPiece` | containerd-shim/kata/config.go:194-195 | a blank-only piece between two others becomes an empty entry (`x, ,z` gives `x,,z`), because only literally empty pieces are skipped |
| `Accelerators.EntriesOfBlankPiece` | containerd-shim/kata/config.go:191-196 | for `x, ,z` with clean `x` and `z`, the entries are `x`, the empty string and `z` |
| `Accelerators.NormalizedAcceleratorsTrailingComma` | containerd-shim/kata/config.go:191-199 | a trailing comma makes no difference to the normalised list |
| `Accelerators.SplitEmptyMiddle` | containerd-shim/kata/config.go:191 | two commas in a row between comma-free `x` and `z` split into `x`, an empty piece and `z` |
| `Accelerators.EntriesOfEmptyPiece` | containerd-shim/kata/config.go:191-199 | for `x,,z` the empty piece is skipped and the entries are the trimmed `x` and `z` |
| `Accelerators.NormalizedAcceleratorsEmptyPiece` | containerd-shim/kata/config.go:189-202 | `x,,z` with non-blank `x` and `z` normalises to the trimmed `x`, a comma and the trimmed `z` |
| `Accelerators.NormalizedAcceleratorsPadded` | containerd-shim/kata/config.go:189-202 | two blank-padded names separated by an empty piece and followed by a trailing comma normalise to the two bare names joined by one comma |
| `Accelerators.NormalizedAcceleratorsExample` | containerd-shim/kata/config.go:189-202 | `"  kvm ,, tcg\t,"` normalises to `kvm,tcg` |
| `Accelerators.BlankedPaddingHasNoComma` | containerd-shim/kata/config.go:191 | blank padding around a comma-free name adds no comma |
| `Accelerators.NormalizedAcceleratorsNotIdempotent` | containerd-shim/kata/config.go:189-202 | normalising the result of `x, ,z` a second time changes it, so the normalisation is not idempotent |
| `HypervisorConfigs.ResolvePath` | containerd-shim/kata/config.go:143 | succeeds exactly when the resolver succeeds, with the resolver's value; a failure names the path and the resolver's cause |
| `HypervisorConfigs.HypervisorPath` | containerd-shim/kata/config.go:136-144 | an empty path means the built-in binary path; the result succeeds exactly when that path resolves, is the resolver's value, and a failure names that path |
| `HypervisorConfigs.KernelPath` | containerd-shim/kata/config.go:146-154 | an empty kernel means the built-in kernel path; the result succeeds exactly when that path resolves, is the resolver's value, and a failure names that path |
| `HypervisorConfigs.InitrdPath` | containerd-shim/kata/config.go:156-164 | an unset initrd is `""` whatever the resolver does; a configured one succeeds exactly when it resolves, with the resolver's value, and a failure names the path |
| `HypervisorConfigs.ImagePath` | containerd-shim/kata/config.go:166-174 | an unset image is `""` whatever the resolver does; a configured one succeeds exactly when it resolves, with the resolver's value, and a failure names the path |
| `HypervisorConfigs.FirmwarePath` | containerd-shim/kata/config.go:176-187 | with the built-in firmware path empty, an unset firmware stays `""`; a configured one succeeds exactly when it resolves, with the resolver's value, and a failure names the path |
| `HypervisorConfigs.KernelParams` | containerd-shim/kata/config.go:204-210 | with the built-in default empty, the configured parameter string is used as it is |
| `HypervisorConfigs.MachineType` | containerd-shim/kata/config.go:212-218 | never empty; a configured type is kept, otherwise `pc` |
| `HypervisorConfigs.DefaultVCPUs` | containerd-shim/kata/config.go:220-231 | a negative request or one above the host count gives the host count; 0 gives 1; anything else is kept; so for 1 <= numCPUs <= 2^31-1 the result lies in [1, numCPUs] |
| `HypervisorConfigs.DefaultMaxVCPUs` | containerd-shim/kata/config.go:233-250 | never above QEMU's maximum or the host count; a request of 0 or at least the host count gives min(host, QEMU max); a smaller request gives min(request, QEMU max); at least 1 when both limits are |
| `HypervisorConfigs.DefaultMemSz` | containerd-shim/kata/config.go:252-258 | at least 8; a request below 8 gives 2048 and any other request is kept |
| `HypervisorConfigs.DefaultBridges` | containerd-shim/kata/config.go:260-270 | in [1, 5]; 0 gives 1, above 5 gives 5, anything else is kept |
| `HypervisorConfigs.BlockDeviceDriver` | containerd-shim/kata/config.go:272-282 | succeeds exactly for `""`, `virtio-scsi` and `virtio-blk`; the result is one of the two drivers (`virtio-scsi` for empty); any other value is an error naming the value and both accepted drivers |
| `HypervisorConfigs.Msize9p` | containerd-shim/kata/config.go:284-290 | never 0; 0 gives 8192 and anything else is kept |
| `HypervisorConfigs.NewQemuHypervisorConfig` | containerd-shim/kata/config.go:292-355 | on success the configuration is well formed (image and initrd exclusive, every derived value in bounds, whitelisted driver), `Mlock == !Swap`, the boolean flags are copied, and the binary and kernel paths are the resolver's answers for the configured-or-default paths; when image and initrd both resolve non-empty it fails, with the exclusivity error once the binary and kernel have resolved |
| `HypervisorConfigs.NewQemuHypervisorConfigFirstError` | containerd-shim/kata/config.go:292-330 | the error of newQemuHypervisorConfig is the first failing step in the order path, kernel, initrd, image, exclusivity, firmware, block driver; no error exactly when no step fails |
| `HypervisorConfigs.FirstErrorIsFirst` | containerd-shim/kata/config.go:292-330 | the first error exists exactly when some step fails, and every earlier step succeeded |
| `HypervisorConfigs.NewQemuHypervisorConfigPathFailures` | containerd-shim/kata/config.go:292-330 | once the binary and kernel resolve, a configured initrd, image or firmware that does not resolve makes newQemuHypervisorConfig fail with that path's resolver error |
| `HypervisorConfigs.NewQemuHypervisorConfigFields` | containerd-shim/kata/config.go:323-354 | on success every field holds its accessor's value |
| `Discovery.DefaultConfigFilePaths` | containerd-shim/kata/config.go:466-474 | two distinct candidates, the `/etc` file first and the `/usr/share` file second |
| `Discovery.DiscoverFindsFirst` | containerd-shim/kata/config.go:482-486 | the first candidate that resolves is returned, and later candidates play no part |
| `Discovery.DiscoverAllFail` | containerd-shim/kata/config.go:487-491 | when no candidate resolves, the error holds one failure per candidate, in order, each naming its file and cause |
| `Discovery.DiscoverSucceedsIff` | containerd-shim/kata/config.go:479-492 | discovery succeeds exactly when some candidate resolves |
| `Discovery.GetDefaultConfigFile` | containerd-shim/kata/config.go:466-492 | the loop gives the reference search's result: the `/etc` candidate when it resolves, else the `/usr/share` one, else one failure per candidate |
| `RuntimeConfiguration.RuntimeConfig.constructor` | containerd-shim/kata/config.go:391-425 | the new object holds the compiled-in hypervisor and agent defaults with no network model yet |
| `RuntimeConfiguration.DefaultHypervisorConfigWellFormed` | containerd-shim/kata/config.go:391-414 | the compiled-in hypervisor configuration is itself well formed, with max vCPUs 0 and the initrd set |
| `RuntimeConfiguration.EmptyTableAgainstDefault` | containerd-shim/kata/config.go:292-355 | under a resolver that returns every path unchanged, an empty `qemu` table derives the compiled-in configuration except that the initrd is unset and max vCPUs come from the host |
| `RuntimeConfiguration.RuntimeConfig.SetModel` | containerd-shim/kata/config.go:427-430 | an accepted name becomes the model with no error; a rejected one is an error and changes nothing |
| `RuntimeConfiguration.NewFactoryConfig` | containerd-shim/kata/config.go:357-359 | the template flag is copied |
| `RuntimeConfiguration.Updated` | containerd-shim/kata/config.go:361-383 | fails exactly when a `qemu` table is present and fails; the failure leaves the configuration unchanged and is that table's error prefixed with the file's path; without a `qemu` table the hypervisor configuration and VM memory are unchanged; a `qemu` table that succeeds becomes the hypervisor configuration and sets VM memory to its DefaultMemSz; on success the factory flag is copied; no other field ever changes |
| `RuntimeConfiguration.QemuTableOnly` | containerd-shim/kata/config.go:363-364 | keeps only the `qemu` key of the hypervisor tables, with its table unchanged |
| `RuntimeConfiguration.UpdatedIgnoresOtherTables` | containerd-shim/kata/config.go:362-374 | hypervisor tables under any key other than `qemu` have no effect |
| `RuntimeConfiguration.UpdateRuntimeConfig` | containerd-shim/kata/config.go:361-383 | the in-place loop over the map, in any key order, leaves the object and the error as described by `Updated` |
| `Loading.LoadedFrom` | containerd-shim/kata/config.go:438-459 | a read or decode failure is returned as it is with the configuration untouched; a decoded file naming a rejected network model is that error with the configuration untouched; otherwise its model, if any, is set and the result is `updateRuntimeConfig`'s overlay of the file's tables with its error; any error leaves the hypervisor configuration and VM memory untouched |
| `Loading.Loaded` | containerd-shim/kata/config.go:388-462 | after any error the hypervisor configuration is still the compiled-in one (nothing half-derived); on success a network model is set and the hypervisor configuration is either the compiled-in one or well formed and derived by newQemuHypervisorConfig, with binary and kernel paths that are answers of the resolver; the agent keeps its long-lived connection |
| `Loading.LoadConfiguration` | containerd-shim/kata/config.go:390-462 | the method builds and mutates a fresh object whose final state and error are those of `Loaded` |
| `Loading.LoadRejectsDefaultNetworkModel` | containerd-shim/kata/config.go:427-430 | when virtcontainers rejects the built-in network model, the fresh object is returned with that error |
| `Loading.LoadWithoutConfigFile` | containerd-shim/kata/config.go:432-436 | when no candidate resolves, the result is the compiled-in configuration with the default network model and no error |
| `Loading.LoadPrefersOverride` | containerd-shim/kata/config.go:466-486 | whenever the `/etc` file resolves, it is the one read |
| `Loading.LoadFallsBackToPackageDefault` | containerd-shim/kata/config.go:466-486 | when the `/etc` file does not resolve and the `/usr/share` one does, the `/usr/share` file is read |
| `Loading.LoadDecodeFailureIsFatal` | containerd-shim/kata/config.go:443-447 | a found file that does not decode is an error |
| `Loading.LoadRejectsNetworkModel` | containerd-shim/kata/config.go:449-454 | a found file naming a network model that virtcontainers rejects aborts the load with that error and the compiled-in configuration |
| `Loading.LoadAppliesFile` | containerd-shim/kata/config.go:449-458 | a found, decoded file with an accepted or absent model sets that model (or keeps the default), fails exactly when its `qemu` table fails, and otherwise takes the `qemu` table's derived configuration (the compiled-in one without a table) and the factory flag |
| `Loading.LoadTableErrorNamesFile` | containerd-shim/kata/config.go:365-368 | a failing `qemu` table is reported with the path of the file that was read |
| `Loading.MemoryOnlyHypervisor` | containerd-shim/kata/config.go:292-355 | a `qemu` table with only `default_memory = 4096` succeeds exactly when the default binary and kernel resolve, and then the configuration is the compiled-in one with memory 4096, the resolved binary and kernel paths, the initrd unset and max vCPUs from the host |
| `Loading.LoadMemoryOverride` | containerd-shim/kata/config.go:361-373 | a file with only `default_memory = 4096` loads exactly when the default binary and kernel resolve; then the whole result is the compiled-in configuration with the default network model, that hypervisor configuration and VM memory 4096 |

## Notes on the code

- A read or decode error is returned unwrapped, without the file's path
  (config.go:438-447). Only errors of the `qemu` table get the path as a prefix
  (config.go:365-368).
- A `[hypervisor.qemu]` table that sets only `default_memory` does not leave the other
  fields at their compiled-in values (config.go:292-355). The initrd becomes unset, max
  vCPUs are derived from the host, and the binary and kernel paths are resolved
  (`Loading.LoadMemoryOverride`, `RuntimeConfiguration.EmptyTableAgainstDefault`).
- The compiled-in configuration has `DefaultMaxVCPUs == 0`, `VMConfig.Memory == 0` and
  unresolved paths. It is returned unchanged when no file is found (`Loading.LoadWithoutConfigFile`).
  The comment on `loadConfiguration` (config.go:388-389) says that all returned paths are
  resolved, but that holds only when a `qemu` table was applied. In that case `Loading.Loaded`
  states that the binary and kernel paths are answers of the resolver.
- In `machine_accelerators` a blank-only piece between two others becomes an empty entry
  (`Accelerators.NormalizedAcceleratorsBlankPiece`). So the normalisation is not idempotent.

## Left out

- `resolvePath`, `ioutil.ReadFile`, `toml.Decode`, `goruntime.NumCPU`, `vc.MaxQemuVCPUs` and the
  accepted names of `InterNetworkModel.SetModel`: filesystem, parser and library code that is not
  part of this model. They are the fields of `Host` and `Environment`.
- `RuntimeConfiguration.RuntimeConfig.SetModel`: assumes that a rejected name leaves the model unchanged, because the virtcontainers code is not part of this model.
- Kernel parameters: `strings.Fields` and `vc.DeserializeParams` are library code. The model keeps the parameter string itself.
- The `[proxy]`, `[shim]` and `[agent]` tables and `runtime.enable_debug` are decoded but never used, so they are not modelled.
- Error texts are not modelled. Errors are structured values that keep the message structure:
  - the failing path and its cause;
  - one failure per candidate file, in order, instead of the `", "`-joined text with `%q` quoting;
  - the configuration path as a prefix of table errors.
- The default paths are package variables that a build may override. They are constants here.
  `defaultImagePath`, `defaultRootDirectory` and `systemdUnitName` are not used by this file.
- Strings are sequences of code points. Go's byte-level UTF-8 view is not modelled.
- Go's random map iteration order is modelled as an unspecified choice of the next key.
- `HypervisorConfigs.DefaultVCPUs`: bounds are stated only for host CPU counts up to 2^31-1. Above that the model computes Go's wrapped conversion but promises nothing.
- `HypervisorConfigs.DefaultMaxVCPUs`: the host-count relations are stated only for host counts below 2^32. The bound by QEMU's maximum always holds.
