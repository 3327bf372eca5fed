/**
 * The runtime configuration the shim hands to virtcontainers, and
 * `updateRuntimeConfig`, which overlays a decoded file onto it in place.
 */
module RuntimeConfiguration {
  import opened Wrappers
  import opened GoInts
  import opened Sections
  import opened Defaults
  import opened HypervisorConfigs
  import Accelerators

  datatype HypervisorType = QemuHypervisor
  datatype AgentType = KataContainersAgent
  datatype ProxyType = KataBuiltInProxyType
  datatype ShimType = KataBuiltInShimType

  datatype KataAgentConfig = KataAgentConfig(longLiveConn: bool)

  datatype FactoryConfig = FactoryConfig(template: bool)

  /** A snapshot of every field of a RuntimeConfig object. */
  datatype RuntimeConfigValue = RuntimeConfigValue(
    hypervisorType: HypervisorType,
    hypervisorConfig: HypervisorConfig,
    agentType: AgentType,
    agentConfig: KataAgentConfig,
    proxyType: ProxyType,
    shimType: ShimType,
    interNetworkModel: Option<string>,  // None: the zero value, before any model was set
    factoryConfig: FactoryConfig,
    vmMemory: nat)                       // VMConfig.Memory, MiB

  /** The compiled-in hypervisor configuration; its paths are not resolved. */
  const DefaultHypervisorConfig: HypervisorConfig := HypervisorConfig(
    hypervisorPath := DefaultHypervisorPath,
    kernelPath := DefaultKernelPath,
    initrdPath := DefaultInitrdPath,
    imagePath := "",
    firmwarePath := DefaultFirmwarePath,
    machineAccelerators := DefaultMachineAccelerators,
    kernelParams := "",
    machineType := DefaultMachineType,
    defaultVCPUs := DefaultVCPUCount,
    defaultMaxVCPUs := DefaultMaxVCPUCount,
    defaultMemSz := DefaultMemSize,
    defaultBridges := DefaultBridgesCount,
    disableBlockDeviceUse := false,
    memPrealloc := false,
    hugePages := false,
    mlock := true,
    debug := false,
    disableNestingChecks := false,
    blockDeviceDriver := DefaultBlockDeviceDriver,
    enableIOThreads := false,
    msize9p := DefaultMsize9p)

  /**
   * The compiled-in configuration keeps the bounds of a derived one, but its
   * max vCPU count is 0 and its initrd is set.
   */
  lemma DefaultHypervisorConfigWellFormed(host: Host)
    requires 1 <= host.numCPUs
    ensures WellFormed(DefaultHypervisorConfig, host)
    ensures DefaultHypervisorConfig.defaultMaxVCPUs == 0 && DefaultHypervisorConfig.initrdPath != ""
  {
  }

  /**
   * Under a resolver that returns every path unchanged, an empty `qemu` table
   * derives the compiled-in configuration except that the initrd becomes
   * unset and max vCPUs follow the host and QEMU.
   */
  lemma EmptyTableAgainstDefault(host: Host)
    requires 1 <= host.numCPUs <= MaxInt32
    requires forall p :: host.resolve(p) == Success(p)
    ensures NewQemuHypervisorConfig(EmptyHypervisor, host)
         == Success(DefaultHypervisorConfig.(
              initrdPath := "",
              defaultMaxVCPUs := Min(host.numCPUs, host.maxQemuVCPUs as int) as uint32))
  {
    var h := EmptyHypervisor;
    assert HypervisorPath(h, host) == Success(DefaultHypervisorPath);
    assert KernelPath(h, host) == Success(DefaultKernelPath);
    assert InitrdPath(h, host) == Success("") && ImagePath(h, host) == Success("");
    assert FirmwarePath(h, host) == Success("");
    assert BlockDeviceDriver(h) == Success(VirtioSCSI);
    NewQemuHypervisorConfigFields(h, host);
    Accelerators.NormalizedAcceleratorsOfEmpty();
  }

  /** The freshly built configuration, before any network model is set. */
  const InitialRuntimeConfig: RuntimeConfigValue := RuntimeConfigValue(
    QemuHypervisor, DefaultHypervisorConfig, KataContainersAgent, KataAgentConfig(true),
    KataBuiltInProxyType, KataBuiltInShimType, None, FactoryConfig(false), 0)

  class RuntimeConfig {
    var hypervisorType: HypervisorType
    var hypervisorConfig: HypervisorConfig
    var agentType: AgentType
    var agentConfig: KataAgentConfig
    var proxyType: ProxyType
    var shimType: ShimType
    var interNetworkModel: Option<string>
    var factoryConfig: FactoryConfig
    var vmMemory: nat

    function Value(): RuntimeConfigValue
      reads this
    {
      RuntimeConfigValue(hypervisorType, hypervisorConfig, agentType, agentConfig,
                         proxyType, shimType, interNetworkModel, factoryConfig, vmMemory)
    }

    /** The composite literal of `loadConfiguration`: compiled-in defaults everywhere. */
    constructor ()
      ensures Value() == InitialRuntimeConfig
    {
      hypervisorType := QemuHypervisor;
      hypervisorConfig := DefaultHypervisorConfig;
      agentType := KataContainersAgent;
      agentConfig := KataAgentConfig(true);
      proxyType := KataBuiltInProxyType;
      shimType := KataBuiltInShimType;
      interNetworkModel := None;
      factoryConfig := FactoryConfig(false);
      vmMemory := 0;
    }

    /**
     * `InterNetworkModel.SetModel`: `accepts` stands for virtcontainers'
     * list of model names; a rejected name leaves the model as it was.
     */
    method SetModel(name: string, accepts: string -> bool) returns (err: Option<ConfigError>)
      modifies this
      ensures err == (if accepts(name) then None else Some(InvalidNetworkModel(name)))
      ensures Value() == if accepts(name) then old(Value()).(interNetworkModel := Some(name)) else old(Value())
    {
      if accepts(name) {
        interNetworkModel := Some(name);
        err := None;
      } else {
        err := Some(InvalidNetworkModel(name));
      }
    }
  }

  /** `newFactoryConfig`: the template flag is copied; the error `newFactoryConfig` returns is always nil. */
  function NewFactoryConfig(f: Factory): (r: FactoryConfig)
    ensures r.template == f.template
  {
    FactoryConfig(f.template)
  }

  /**
   * What `updateRuntimeConfig` does to a configuration: the `qemu` table, if
   * present, replaces the hypervisor configuration and sets the VM memory to
   * its DefaultMemSz; then the factory table is copied. A failing `qemu`
   * table stops everything, with its error prefixed by the file's path.
   */
  function Updated(v: RuntimeConfigValue, configPath: string, t: TomlConfig, host: Host): (r: (RuntimeConfigValue, Option<ConfigError>))
    ensures r.1.Some? <==> (QemuHypervisorTableType in t.hypervisor &&
                            NewQemuHypervisorConfig(t.hypervisor[QemuHypervisorTableType], host).Failure?)
    ensures r.1.Some? ==> r.0 == v && r.1.value.InFile? && r.1.value.configPath == configPath
    ensures r.1.Some? ==>
              r.1.value == InFile(configPath, NewQemuHypervisorConfig(t.hypervisor[QemuHypervisorTableType], host).error)
    ensures r.1.None? ==> r.0.factoryConfig.template == t.factory.template
    ensures QemuHypervisorTableType !in t.hypervisor ==>
              r.0.hypervisorConfig == v.hypervisorConfig && r.0.vmMemory == v.vmMemory
    ensures r.1.None? && QemuHypervisorTableType in t.hypervisor ==>
              Success(r.0.hypervisorConfig) == NewQemuHypervisorConfig(t.hypervisor[QemuHypervisorTableType], host)
              && r.0.vmMemory == r.0.hypervisorConfig.defaultMemSz as nat
    ensures r.0.(hypervisorConfig := v.hypervisorConfig, vmMemory := v.vmMemory, factoryConfig := v.factoryConfig) == v
  {
    var v' :=
      if QemuHypervisorTableType in t.hypervisor then
        match NewQemuHypervisorConfig(t.hypervisor[QemuHypervisorTableType], host)
        case Failure(e) => Failure(InFile(configPath, e))
        case Success(hc) => Success(v.(vmMemory := hc.defaultMemSz as nat, hypervisorConfig := hc))
      else Success(v);
    match v'
    case Failure(e) => (v, Some(e))
    case Success(u) => (u.(factoryConfig := NewFactoryConfig(t.factory)), None)
  }

  /** The hypervisor tables reduced to the recognised `qemu` key. */
  function QemuTableOnly(m: map<string, Hypervisor>): (m': map<string, Hypervisor>)
    ensures m'.Keys == m.Keys * {QemuHypervisorTableType}
    ensures forall k :: k in m' ==> m'[k] == m[k]
  {
    map k | k in m && k == QemuHypervisorTableType :: m[k]
  }

  /** Hypervisor tables of any type other than `qemu` have no effect. */
  lemma UpdatedIgnoresOtherTables(v: RuntimeConfigValue, configPath: string, t: TomlConfig, host: Host)
    ensures Updated(v, configPath, t, host) == Updated(v, configPath, t.(hypervisor := QemuTableOnly(t.hypervisor)), host)
  {
    var t' := t.(hypervisor := QemuTableOnly(t.hypervisor));
    if QemuHypervisorTableType in t.hypervisor {
      assert t'.hypervisor[QemuHypervisorTableType] == t.hypervisor[QemuHypervisorTableType];
    }
  }

  /**
   * `updateRuntimeConfig`: visits the hypervisor tables in an unspecified
   * order (Go's map iteration) and acts on the `qemu` one only.
   */
  method UpdateRuntimeConfig(configPath: string, t: TomlConfig, config: RuntimeConfig, host: Host)
    returns (err: Option<ConfigError>)
    modifies config
    ensures (config.Value(), err) == Updated(old(config.Value()), configPath, t, host)
  {
    var keys := t.hypervisor.Keys;
    while keys != {}
      invariant keys <= t.hypervisor.Keys
      invariant QemuHypervisorTableType in t.hypervisor && QemuHypervisorTableType !in keys ==>
                  && NewQemuHypervisorConfig(t.hypervisor[QemuHypervisorTableType], host).Success?
                  && var hc := NewQemuHypervisorConfig(t.hypervisor[QemuHypervisorTableType], host).value;
                     config.Value() == old(config.Value()).(vmMemory := hc.defaultMemSz as nat, hypervisorConfig := hc)
      invariant QemuHypervisorTableType !in t.hypervisor || QemuHypervisorTableType in keys ==>
                  config.Value() == old(config.Value())
      decreases keys
    {
      var k :| k in keys;
      if k == QemuHypervisorTableType {
        var hConfig := NewQemuHypervisorConfig(t.hypervisor[k], host);
        if hConfig.Failure? {
          return Some(InFile(configPath, hConfig.error));
        }
        config.vmMemory := hConfig.value.defaultMemSz as nat;
        config.hypervisorConfig := hConfig.value;
      }
      keys := keys - {k};
    }
    config.factoryConfig := NewFactoryConfig(t.factory);
    err := None;
  }
}
