/**
 * The accessors of a `[hypervisor.qemu]` table and the assembly of the
 * hypervisor configuration from them (`newQemuHypervisorConfig`).
 */
module HypervisorConfigs {
  import opened Wrappers
  import opened GoInts
  import opened Sections
  import opened Defaults
  import Accelerators

  /**
   * What the accessors ask of their surroundings: the host's logical CPU
   * count, the most vCPUs QEMU supports, and path canonicalisation, which
   * either yields the canonical path or fails with a cause.
   */
  datatype Host = Host(
    numCPUs: nat,
    maxQemuVCPUs: uint32,
    resolve: string -> Result<string, string>)

  /** The resolved hypervisor configuration handed to virtcontainers. */
  datatype HypervisorConfig = HypervisorConfig(
    hypervisorPath: string,
    kernelPath: string,
    initrdPath: string,
    imagePath: string,
    firmwarePath: string,
    machineAccelerators: string,
    kernelParams: string,
    machineType: string,
    defaultVCPUs: uint32,
    defaultMaxVCPUs: uint32,
    defaultMemSz: uint32,
    defaultBridges: uint32,
    disableBlockDeviceUse: bool,
    memPrealloc: bool,
    hugePages: bool,
    mlock: bool,
    debug: bool,
    disableNestingChecks: bool,
    blockDeviceDriver: string,
    enableIOThreads: bool,
    msize9p: uint32)

  /** A path that does not resolve is an error naming the path and the resolver's cause. */
  function ResolvePath(host: Host, p: string): (r: Result<string, ConfigError>)
    ensures r.Success? <==> host.resolve(p).Success?
    ensures r.Success? ==> r.value == host.resolve(p).value
    ensures r.Failure? ==> r.error == ResolveFailed(p, host.resolve(p).error)
  {
    match host.resolve(p)
    case Success(q) => Success(q)
    case Failure(cause) => Failure(ResolveFailed(p, cause))
  }

  function PathOrDefault(p: string, default: string): string
  {
    if p == "" then default else p
  }

  /** `hypervisor.path`: the binary, defaulted, then resolved; a resolver failure is fatal. */
  function HypervisorPath(h: Hypervisor, host: Host): (r: Result<string, ConfigError>)
    ensures var p := if h.path == "" then DefaultHypervisorPath else h.path;
            && (r.Success? <==> host.resolve(p).Success?)
            && (r.Success? ==> r.value == host.resolve(p).value)
            && (r.Failure? ==> r.error == ResolveFailed(p, host.resolve(p).error))
  {
    ResolvePath(host, PathOrDefault(h.path, DefaultHypervisorPath))
  }

  /** `hypervisor.kernel`: the kernel, defaulted, then resolved; a resolver failure is fatal. */
  function KernelPath(h: Hypervisor, host: Host): (r: Result<string, ConfigError>)
    ensures var p := if h.kernel == "" then DefaultKernelPath else h.kernel;
            && (r.Success? <==> host.resolve(p).Success?)
            && (r.Success? ==> r.value == host.resolve(p).value)
            && (r.Failure? ==> r.error == ResolveFailed(p, host.resolve(p).error))
  {
    ResolvePath(host, PathOrDefault(h.kernel, DefaultKernelPath))
  }

  /** `hypervisor.initrd`: unset stays unset and is never resolved; a configured one must resolve. */
  function InitrdPath(h: Hypervisor, host: Host): (r: Result<string, ConfigError>)
    ensures h.initrd == "" ==> r == Success("")
    ensures r.Success? && r.value != "" ==> host.resolve(h.initrd) == Success(r.value)
    ensures h.initrd != "" ==>
              && (r.Success? <==> host.resolve(h.initrd).Success?)
              && (r.Success? ==> r.value == host.resolve(h.initrd).value)
              && (r.Failure? ==> r.error == ResolveFailed(h.initrd, host.resolve(h.initrd).error))
  {
    if h.initrd == "" then Success("") else ResolvePath(host, h.initrd)
  }

  /** `hypervisor.image`: unset stays unset and is never resolved; a configured one must resolve. */
  function ImagePath(h: Hypervisor, host: Host): (r: Result<string, ConfigError>)
    ensures h.image == "" ==> r == Success("")
    ensures r.Success? && r.value != "" ==> host.resolve(h.image) == Success(r.value)
    ensures h.image != "" ==>
              && (r.Success? <==> host.resolve(h.image).Success?)
              && (r.Success? ==> r.value == host.resolve(h.image).value)
              && (r.Failure? ==> r.error == ResolveFailed(h.image, host.resolve(h.image).error))
  {
    if h.image == "" then Success("") else ResolvePath(host, h.image)
  }

  /**
   * `hypervisor.firmware`: since the built-in firmware path is empty, unset
   * stays unset; a configured firmware must resolve.
   */
  function FirmwarePath(h: Hypervisor, host: Host): (r: Result<string, ConfigError>)
    ensures h.firmware == "" ==> r == Success("")
    ensures h.firmware != "" ==>
              && (r.Success? <==> host.resolve(h.firmware).Success?)
              && (r.Success? ==> r.value == host.resolve(h.firmware).value)
              && (r.Failure? ==> r.error == ResolveFailed(h.firmware, host.resolve(h.firmware).error))
  {
    if h.firmware == "" then
      if DefaultFirmwarePath == "" then Success("") else ResolvePath(host, DefaultFirmwarePath)
    else ResolvePath(host, h.firmware)
  }

  /** `hypervisor.kernelParams`: the built-in default is empty, so the raw value is kept as it is. */
  function KernelParams(h: Hypervisor): (r: string)
    ensures r == h.kernelParams
  {
    if h.kernelParams == "" then DefaultKernelParams else h.kernelParams
  }

  /** `hypervisor.machineType`: never empty; a given type is kept. */
  function MachineType(h: Hypervisor): (r: string)
    ensures r != ""
    ensures h.machineType != "" ==> r == h.machineType
    ensures h.machineType == "" ==> r == DefaultMachineType
  {
    if h.machineType == "" then DefaultMachineType else h.machineType
  }

  /**
   * `hypervisor.defaultVCPUs`. Go compares the request with `int32(numCPUs)`
   * and answers `uint32(numCPUs)`; both conversions are written out.
   */
  function DefaultVCPUs(h: Hypervisor, numCPUs: nat): (r: uint32)
    ensures numCPUs <= MaxInt32 && (h.defaultVCPUs < 0 || h.defaultVCPUs as int > numCPUs) ==> r as int == numCPUs
    ensures numCPUs <= MaxInt32 && h.defaultVCPUs == 0 ==> r == 1
    ensures numCPUs <= MaxInt32 && 0 < h.defaultVCPUs as int <= numCPUs ==> r as int == h.defaultVCPUs as int
    ensures 1 <= numCPUs <= MaxInt32 ==> 1 <= r as int <= numCPUs
  {
    if h.defaultVCPUs < 0 || h.defaultVCPUs > Int32Of(numCPUs) then Uint32Of(numCPUs)
    else if h.defaultVCPUs == 0 then DefaultVCPUCount
    else Uint32Of(h.defaultVCPUs as int)
  }

  /**
   * `hypervisor.defaultMaxVCPUs`: a request that is 0 or not below the host
   * count becomes the host count (`uint32(numCPUs)`), which is then capped at
   * what QEMU supports.
   */
  function DefaultMaxVCPUs(h: Hypervisor, numCPUs: nat, maxQemuVCPUs: uint32): (r: uint32)
    ensures r <= maxQemuVCPUs
    ensures numCPUs < Uint32Modulus ==> r as int <= numCPUs
    ensures numCPUs < Uint32Modulus && (h.defaultMaxVCPUs == 0 || h.defaultMaxVCPUs as int >= numCPUs) ==>
              r as int == Min(numCPUs, maxQemuVCPUs as int)
    ensures numCPUs < Uint32Modulus && 0 < h.defaultMaxVCPUs as int < numCPUs ==>
              r as int == Min(h.defaultMaxVCPUs as int, maxQemuVCPUs as int)
    ensures 1 <= numCPUs < Uint32Modulus && maxQemuVCPUs >= 1 ==> r >= 1
  {
    var numcpus := Uint32Of(numCPUs);
    var reqVCPUs := if h.defaultMaxVCPUs >= numcpus || h.defaultMaxVCPUs == 0 then numcpus else h.defaultMaxVCPUs;
    if reqVCPUs > maxQemuVCPUs then maxQemuVCPUs else reqVCPUs
  }

  /** `hypervisor.defaultMemSz` (MiB): a request below 8 gets the built-in 2048. */
  function DefaultMemSz(h: Hypervisor): (r: uint32)
    ensures r >= 8
    ensures h.defaultMemSz >= 8 ==> r == h.defaultMemSz
    ensures h.defaultMemSz < 8 ==> r == DefaultMemSize
  {
    if h.defaultMemSz < 8 then DefaultMemSize else h.defaultMemSz
  }

  /** `hypervisor.defaultBridges`: 0 means the built-in 1, and at most MaxPCIBridges. */
  function DefaultBridges(h: Hypervisor): (r: uint32)
    ensures 1 <= r <= MaxPCIBridges
    ensures 1 <= h.defaultBridges <= MaxPCIBridges ==> r == h.defaultBridges
    ensures h.defaultBridges == 0 ==> r == DefaultBridgesCount
    ensures h.defaultBridges > MaxPCIBridges ==> r == MaxPCIBridges
  {
    if h.defaultBridges == 0 then DefaultBridgesCount
    else if h.defaultBridges > MaxPCIBridges then MaxPCIBridges
    else h.defaultBridges
  }

  /** `hypervisor.blockDeviceDriver`: empty means virtio-scsi; anything outside the two drivers is an error. */
  function BlockDeviceDriver(h: Hypervisor): (r: Result<string, ConfigError>)
    ensures r.Success? <==> h.blockDeviceDriver in {"", VirtioSCSI, VirtioBlock}
    ensures h.blockDeviceDriver == "" ==> r == Success(VirtioSCSI)
    ensures r.Success? ==> r.value in {VirtioSCSI, VirtioBlock}
    ensures r.Success? && h.blockDeviceDriver != "" ==> r.value == h.blockDeviceDriver
    ensures r.Failure? ==> r.error == InvalidBlockDeviceDriver(h.blockDeviceDriver, [VirtioSCSI, VirtioBlock])
  {
    if h.blockDeviceDriver == "" then Success(DefaultBlockDeviceDriver)
    else if h.blockDeviceDriver != VirtioSCSI && h.blockDeviceDriver != VirtioBlock then
      Failure(InvalidBlockDeviceDriver(h.blockDeviceDriver, [VirtioSCSI, VirtioBlock]))
    else Success(h.blockDeviceDriver)
  }

  /** `hypervisor.msize9p`: 0 means the built-in 8192, so the result is never 0. */
  function Msize9p(h: Hypervisor): (r: uint32)
    ensures r != 0
    ensures h.msize9p != 0 ==> r == h.msize9p
    ensures h.msize9p == 0 ==> r == DefaultMsize9p
  {
    if h.msize9p == 0 then DefaultMsize9p else h.msize9p
  }

  /**
   * The bounds every derived hypervisor configuration keeps: image and initrd
   * exclusive, vCPUs within the host, max vCPUs within host and QEMU, memory,
   * bridges and 9p size in range, and a whitelisted block driver.
   */
  predicate WellFormed(c: HypervisorConfig, host: Host)
  {
    && (c.initrdPath == "" || c.imagePath == "")
    && (1 <= host.numCPUs <= MaxInt32 ==> 1 <= c.defaultVCPUs as int <= host.numCPUs)
    && c.defaultMaxVCPUs <= host.maxQemuVCPUs
    && (host.numCPUs < Uint32Modulus ==> c.defaultMaxVCPUs as int <= host.numCPUs)
    && c.defaultMemSz >= 8
    && 1 <= c.defaultBridges <= MaxPCIBridges
    && c.msize9p != 0
    && c.blockDeviceDriver in {VirtioSCSI, VirtioBlock}
  }

  /** Both an image and an initrd are configured and both resolve to non-empty paths. */
  predicate BothBootImagesResolve(h: Hypervisor, host: Host)
  {
    && h.initrd != "" && h.image != ""
    && host.resolve(h.initrd).Success? && host.resolve(h.initrd).value != ""
    && host.resolve(h.image).Success? && host.resolve(h.image).value != ""
  }

  /** `newQemuHypervisorConfig`: every step in its early-return order, stopping at the first error. */
  function NewQemuHypervisorConfig(h: Hypervisor, host: Host): (r: Result<HypervisorConfig, ConfigError>)
    ensures r.Success? ==> WellFormed(r.value, host)
    ensures r.Success? ==> r.value.mlock == !h.swap
    ensures r.Success? ==>
              && r.value.memPrealloc == h.memPrealloc && r.value.hugePages == h.hugePages
              && r.value.debug == h.debug && r.value.disableNestingChecks == h.disableNestingChecks
              && r.value.disableBlockDeviceUse == h.disableBlockDeviceUse
              && r.value.enableIOThreads == h.enableIOThreads
    ensures r.Success? ==>
              && host.resolve(PathOrDefault(h.path, DefaultHypervisorPath)) == Success(r.value.hypervisorPath)
              && host.resolve(PathOrDefault(h.kernel, DefaultKernelPath)) == Success(r.value.kernelPath)
    ensures BothBootImagesResolve(h, host) ==> r.Failure?
    ensures BothBootImagesResolve(h, host) && HypervisorPath(h, host).Success? && KernelPath(h, host).Success? ==>
              r == Failure(ImageAndInitrd)
  {
    var hypervisor :- HypervisorPath(h, host);
    var kernel :- KernelPath(h, host);
    var initrd :- InitrdPath(h, host);
    var image :- ImagePath(h, host);
    if image != "" && initrd != "" then Failure(ImageAndInitrd)
    else
      var firmware :- FirmwarePath(h, host);
      var blockDriver :- BlockDeviceDriver(h);
      Success(HypervisorConfig(
        hypervisorPath := hypervisor,
        kernelPath := kernel,
        initrdPath := initrd,
        imagePath := image,
        firmwarePath := firmware,
        machineAccelerators := Accelerators.NormalizedAccelerators(h.machineAccelerators),
        kernelParams := KernelParams(h),
        machineType := MachineType(h),
        defaultVCPUs := DefaultVCPUs(h, host.numCPUs),
        defaultMaxVCPUs := DefaultMaxVCPUs(h, host.numCPUs, host.maxQemuVCPUs),
        defaultMemSz := DefaultMemSz(h),
        defaultBridges := DefaultBridges(h),
        disableBlockDeviceUse := h.disableBlockDeviceUse,
        memPrealloc := h.memPrealloc,
        hugePages := h.hugePages,
        mlock := !h.swap,
        debug := h.debug,
        disableNestingChecks := h.disableNestingChecks,
        blockDeviceDriver := blockDriver,
        enableIOThreads := h.enableIOThreads,
        msize9p := Msize9p(h)))
  }

  function ErrorOf<T>(r: Result<T, ConfigError>): Option<ConfigError>
  {
    if r.Failure? then Some(r.error) else None
  }

  /**
   * The verdict of each step of newQemuHypervisorConfig taken on its own, in
   * the order of `newQemuHypervisorConfig`: path, kernel, initrd, image, the image/initrd
   * exclusivity check, firmware, block driver.
   */
  function StepVerdicts(h: Hypervisor, host: Host): (vs: seq<Option<ConfigError>>)
    ensures |vs| == 7
  {
    var initrd := InitrdPath(h, host);
    var image := ImagePath(h, host);
    [ ErrorOf(HypervisorPath(h, host)),
      ErrorOf(KernelPath(h, host)),
      ErrorOf(initrd),
      ErrorOf(image),
      if initrd.Success? && image.Success? && initrd.value != "" && image.value != "" then Some(ImageAndInitrd) else None,
      ErrorOf(FirmwarePath(h, host)),
      ErrorOf(BlockDeviceDriver(h)) ]
  }

  /** The first error of a sequence of verdicts, if any. */
  function FirstError(vs: seq<Option<ConfigError>>): Option<ConfigError>
  {
    if |vs| == 0 then None
    else if vs[0].Some? then vs[0]
    else FirstError(vs[1..])
  }

  /** FirstError finds an error exactly when there is one, and it is the one with no error before it. */
  lemma {:induction false} FirstErrorIsFirst(vs: seq<Option<ConfigError>>)
    ensures FirstError(vs).Some? <==> exists i :: 0 <= i < |vs| && vs[i].Some?
    ensures FirstError(vs).Some? ==>
              exists i :: 0 <= i < |vs| && vs[i] == FirstError(vs) && forall j :: 0 <= j < i ==> vs[j].None?
  {
    if |vs| > 0 && vs[0].None? {
      FirstErrorIsFirst(vs[1..]);
      assert forall i :: 0 <= i < |vs| - 1 ==> vs[1..][i] == vs[i + 1];
      if FirstError(vs).Some? {
        var i :| 0 <= i < |vs| - 1 && vs[1..][i] == FirstError(vs) && forall j :: 0 <= j < i ==> vs[1..][j].None?;
        assert vs[i + 1] == FirstError(vs);
        assert forall j :: 0 <= j < i + 1 ==> vs[j].None? by {
          forall j | 0 <= j < i + 1 ensures vs[j].None? {
            if j > 0 { assert vs[j] == vs[1..][j - 1]; }
          }
        }
      }
    }
  }

  /**
   * newQemuHypervisorConfig fails exactly when some step fails, and then with
   * the error of the first failing step.
   */
  lemma NewQemuHypervisorConfigFirstError(h: Hypervisor, host: Host)
    ensures ErrorOf(NewQemuHypervisorConfig(h, host)) == FirstError(StepVerdicts(h, host))
  {
    var vs := StepVerdicts(h, host);
    var r := NewQemuHypervisorConfig(h, host);
    if vs[0].None? {
      assert FirstError(vs) == FirstError(vs[1..]);
      if vs[1].None? {
        assert FirstError(vs[1..]) == FirstError(vs[2..]) by { assert vs[1..][1..] == vs[2..]; }
        if vs[2].None? {
          assert FirstError(vs[2..]) == FirstError(vs[3..]) by { assert vs[2..][1..] == vs[3..]; }
          if vs[3].None? {
            assert FirstError(vs[3..]) == FirstError(vs[4..]) by { assert vs[3..][1..] == vs[4..]; }
            if vs[4].None? {
              assert FirstError(vs[4..]) == FirstError(vs[5..]) by { assert vs[4..][1..] == vs[5..]; }
              if vs[5].None? {
                assert FirstError(vs[5..]) == FirstError(vs[6..]) by { assert vs[5..][1..] == vs[6..]; }
                assert FirstError(vs[6..]) == vs[6] by { assert vs[6..][1..] == []; }
              }
            }
          }
        }
      }
    }
  }

  /**
   * A configured initrd, image or firmware that does not resolve makes
   * newQemuHypervisorConfig fail with that resolver error, once every earlier step succeeded.
   */
  lemma NewQemuHypervisorConfigPathFailures(h: Hypervisor, host: Host)
    requires HypervisorPath(h, host).Success? && KernelPath(h, host).Success?
    ensures h.initrd != "" && host.resolve(h.initrd).Failure? ==>
              NewQemuHypervisorConfig(h, host) == Failure(ResolveFailed(h.initrd, host.resolve(h.initrd).error))
    ensures InitrdPath(h, host).Success? && h.image != "" && host.resolve(h.image).Failure? ==>
              NewQemuHypervisorConfig(h, host) == Failure(ResolveFailed(h.image, host.resolve(h.image).error))
    ensures InitrdPath(h, host).Success? && ImagePath(h, host).Success?
            && (InitrdPath(h, host).value == "" || ImagePath(h, host).value == "")
            && h.firmware != "" && host.resolve(h.firmware).Failure? ==>
              NewQemuHypervisorConfig(h, host) == Failure(ResolveFailed(h.firmware, host.resolve(h.firmware).error))
  {
  }

  /** On success every field is the corresponding accessor's value. */
  lemma NewQemuHypervisorConfigFields(h: Hypervisor, host: Host)
    requires NewQemuHypervisorConfig(h, host).Success?
    ensures var c := NewQemuHypervisorConfig(h, host).value;
            && Success(c.hypervisorPath) == HypervisorPath(h, host)
            && Success(c.kernelPath) == KernelPath(h, host)
            && Success(c.initrdPath) == InitrdPath(h, host)
            && Success(c.imagePath) == ImagePath(h, host)
            && Success(c.firmwarePath) == FirmwarePath(h, host)
            && Success(c.blockDeviceDriver) == BlockDeviceDriver(h)
            && c.machineAccelerators == Accelerators.NormalizedAccelerators(h.machineAccelerators)
            && c.kernelParams == h.kernelParams
            && c.machineType == MachineType(h)
            && c.defaultVCPUs == DefaultVCPUs(h, host.numCPUs)
            && c.defaultMaxVCPUs == DefaultMaxVCPUs(h, host.numCPUs, host.maxQemuVCPUs)
            && c.defaultMemSz == DefaultMemSz(h)
            && c.defaultBridges == DefaultBridges(h)
            && c.msize9p == Msize9p(h)
  {
  }
}
