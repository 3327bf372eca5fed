/**
 * The compiled-in defaults of the shim's configuration and the constants it
 * shares with the virtcontainers library.
 */
module Defaults {
  import opened GoInts

  const DefaultHypervisorPath: string := "/usr/bin/qemu-lite-system-x86_64"
  const DefaultKernelPath: string := "/usr/share/kata-containers/vmlinuz.container"
  const DefaultInitrdPath: string := "/usr/share/kata-containers/kata-containers-initrd.img"
  const DefaultFirmwarePath: string := ""
  const DefaultMachineAccelerators: string := ""
  const DefaultKernelParams: string := ""
  const DefaultMachineType: string := "pc"

  const DefaultVCPUCount: uint32 := 1
  const DefaultMaxVCPUCount: uint32 := 0
  const DefaultMemSize: uint32 := 2048  // MiB
  const DefaultBridgesCount: uint32 := 1
  const DefaultInterNetworkingModel: string := "macvtap"
  const DefaultBlockDeviceDriver: string := "virtio-scsi"
  const DefaultMsize9p: uint32 := 8192

  /** The configuration file of stateless systems. */
  const DefaultRuntimeConfiguration: string := "/usr/share/defaults/kata-containers/configuration.toml"
  /** The system-wide override that takes precedence over DefaultRuntimeConfiguration. */
  const DefaultSysConfRuntimeConfiguration: string := "/etc/kata-containers/configuration.toml"

  /** The only hypervisor table type that is interpreted. */
  const QemuHypervisorTableType: string := "qemu"
  /** The largest number of PCI bridges that can be cold plugged in a VM. */
  const MaxPCIBridges: uint32 := 5

  /** The two block-device drivers virtcontainers accepts. */
  const VirtioSCSI: string := "virtio-scsi"
  const VirtioBlock: string := "virtio-blk"
}

/** The typed view of a decoded configuration file, and the errors of loading one. */
module Sections {
  import opened GoInts

  /** A `[hypervisor.<type>]` table; an absent key decodes to the zero value. */
  datatype Hypervisor = Hypervisor(
    path: string,
    kernel: string,
    initrd: string,
    image: string,
    firmware: string,
    machineAccelerators: string,
    kernelParams: string,
    machineType: string,
    defaultVCPUs: int32,
    defaultMaxVCPUs: uint32,
    defaultMemSz: uint32,
    defaultBridges: uint32,
    msize9p: uint32,
    blockDeviceDriver: string,
    disableBlockDeviceUse: bool,
    memPrealloc: bool,
    hugePages: bool,
    swap: bool,
    debug: bool,
    disableNestingChecks: bool,
    enableIOThreads: bool)

  /** The `[runtime]` table. */
  datatype Runtime = Runtime(debug: bool, interNetworkModel: string)

  /** The `[factory]` table. */
  datatype Factory = Factory(template: bool)

  /** A decoded file: hypervisor tables keyed by their type, plus the runtime and factory tables. */
  datatype TomlConfig = TomlConfig(
    hypervisor: map<string, Hypervisor>,
    runtime: Runtime,
    factory: Factory)

  /** A hypervisor table in which every key is absent. */
  const EmptyHypervisor: Hypervisor :=
    Hypervisor("", "", "", "", "", "", "", "", 0, 0, 0, 0, 0, "", false, false, false, false, false, false, false)

  /** Why one candidate configuration file could not be used. */
  datatype CandidateFailure = CandidateFailure(file: string, cause: string)

  datatype ConfigError =
    | ResolveFailed(path: string, cause: string)
    | ImageAndInitrd
    | InvalidBlockDeviceDriver(value: string, accepted: seq<string>)
    | NoConfigFile(candidates: seq<CandidateFailure>)
    | InvalidNetworkModel(name: string)
    | ReadFailed(cause: string)
    | DecodeFailed(cause: string)
    | InFile(configPath: string, inner: ConfigError)
}
