/** `loadConfiguration`: compiled-in defaults, then the discovered file, if any, overlaid on them. */
module Loading {
  import opened Wrappers
  import opened GoInts
  import opened Sections
  import opened Defaults
  import opened HypervisorConfigs
  import opened Discovery
  import opened RuntimeConfiguration

  /**
   * Everything loading asks of the outside world: the host queries and path
   * resolution, reading a file (contents or a cause), decoding TOML (a
   * document or a cause), and which network-model names virtcontainers accepts.
   */
  datatype Environment = Environment(
    host: Host,
    readFile: string -> Result<string, string>,
    decode: string -> Result<TomlConfig, string>,
    acceptsNetModel: string -> bool)

  /** The defaults with the built-in network model set: the result when no file is used. */
  const DefaultRuntimeConfig: RuntimeConfigValue :=
    InitialRuntimeConfig.(interNetworkModel := Some(DefaultInterNetworkingModel))

  /** Reading, decoding and overlaying the resolved file `resolved` onto `v`. */
  function LoadedFrom(v: RuntimeConfigValue, resolved: string, env: Environment): (r: (RuntimeConfigValue, Option<ConfigError>))
    ensures env.readFile(resolved).Failure? ==> r == (v, Some(ReadFailed(env.readFile(resolved).error)))
    ensures env.readFile(resolved).Success? && env.decode(env.readFile(resolved).value).Failure? ==>
              r == (v, Some(DecodeFailed(env.decode(env.readFile(resolved).value).error)))
    ensures r.1.Some? ==> r.0.hypervisorConfig == v.hypervisorConfig && r.0.vmMemory == v.vmMemory
    ensures r.0.interNetworkModel != v.interNetworkModel ==>
              r.0.interNetworkModel.Some? && env.acceptsNetModel(r.0.interNetworkModel.value)
    ensures r.1.None? && r.0.hypervisorConfig != v.hypervisorConfig ==>
              exists h :: Success(r.0.hypervisorConfig) == NewQemuHypervisorConfig(h, env.host)
    ensures env.readFile(resolved).Success? && env.decode(env.readFile(resolved).value).Success? ==>
              var t := env.decode(env.readFile(resolved).value).value;
              var m := t.runtime.interNetworkModel;
              && (m != "" && !env.acceptsNetModel(m) ==> r == (v, Some(InvalidNetworkModel(m))))
              && (m == "" || env.acceptsNetModel(m) ==>
                    var u := Updated(v, resolved, t, env.host);
                    r == (u.0.(interNetworkModel := if m == "" then v.interNetworkModel else Some(m)), u.1))
  {
    match env.readFile(resolved)
    case Failure(cause) => (v, Some(ReadFailed(cause)))
    case Success(data) =>
      match env.decode(data)
      case Failure(cause) => (v, Some(DecodeFailed(cause)))
      case Success(t) =>
        var model := t.runtime.interNetworkModel;
        if model == "" then Updated(v, resolved, t, env.host)
        else if !env.acceptsNetModel(model) then (v, Some(InvalidNetworkModel(model)))
        else Updated(v.(interNetworkModel := Some(model)), resolved, t, env.host)
  }

  /** The configuration and error `loadConfiguration` returns. */
  function Loaded(env: Environment): (r: (RuntimeConfigValue, Option<ConfigError>))
    ensures r.1.Some? ==> r.0.hypervisorConfig == DefaultHypervisorConfig && r.0.vmMemory == 0
    ensures r.1.None? ==> r.0.interNetworkModel.Some?
    ensures r.1.None? ==> r.0.hypervisorConfig == DefaultHypervisorConfig || WellFormed(r.0.hypervisorConfig, env.host)
    ensures r.0.agentConfig == KataAgentConfig(true) && r.0.hypervisorType == QemuHypervisor
    ensures r.1.None? && r.0.hypervisorConfig != DefaultHypervisorConfig ==>
              var c := r.0.hypervisorConfig;
              && (exists h :: Success(c) == NewQemuHypervisorConfig(h, env.host))
              && (exists p :: env.host.resolve(p) == Success(c.hypervisorPath))
              && (exists p :: env.host.resolve(p) == Success(c.kernelPath))
  {
    if !env.acceptsNetModel(DefaultInterNetworkingModel) then
      (InitialRuntimeConfig, Some(InvalidNetworkModel(DefaultInterNetworkingModel)))
    else
      match DefaultConfigFile(env.host.resolve)
      case Failure(_) => (DefaultRuntimeConfig, None)
      case Success(resolved) =>
        if resolved == "" then (DefaultRuntimeConfig, None)
        else LoadedFrom(DefaultRuntimeConfig, resolved, env)
  }

  /**
   * `loadConfiguration`. A failure to find a file is not an error; every
   * failure after a file was found is, and the configuration built so far is
   * returned beside it.
   */
  method LoadConfiguration(env: Environment) returns (config: RuntimeConfig, err: Option<ConfigError>)
    ensures fresh(config)
    ensures (config.Value(), err) == Loaded(env)
  {
    config := new RuntimeConfig();
    err := config.SetModel(DefaultInterNetworkingModel, env.acceptsNetModel);
    if err.Some? {
      return;
    }
    var resolved := GetDefaultConfigFile(env.host.resolve);
    if resolved.Success? && resolved.value != "" {
      var configData := env.readFile(resolved.value);
      if configData.Failure? {
        return config, Some(ReadFailed(configData.error));
      }
      var tomlConf := env.decode(configData.value);
      if tomlConf.Failure? {
        return config, Some(DecodeFailed(tomlConf.error));
      }
      if tomlConf.value.runtime.interNetworkModel != "" {
        err := config.SetModel(tomlConf.value.runtime.interNetworkModel, env.acceptsNetModel);
        if err.Some? {
          return;
        }
      }
      err := UpdateRuntimeConfig(resolved.value, tomlConf.value, config, env.host);
      return;
    }
    err := None;
  }

  /** virtcontainers rejects the built-in network model: the fresh object is returned with that error. */
  lemma LoadRejectsDefaultNetworkModel(env: Environment)
    requires !env.acceptsNetModel(DefaultInterNetworkingModel)
    ensures Loaded(env) == (InitialRuntimeConfig, Some(InvalidNetworkModel(DefaultInterNetworkingModel)))
  {
  }

  /** No candidate resolves: the compiled-in defaults, unresolved, with no error. */
  lemma LoadWithoutConfigFile(env: Environment)
    requires env.acceptsNetModel(DefaultInterNetworkingModel)
    requires env.host.resolve(DefaultSysConfRuntimeConfiguration).Failure?
    requires env.host.resolve(DefaultRuntimeConfiguration).Failure?
    ensures Loaded(env) == (DefaultRuntimeConfig, None)
  {
    var paths := DefaultConfigFilePaths();
    DiscoverAllFail(paths, env.host.resolve);
  }

  /** The override location wins whenever it resolves. */
  lemma LoadPrefersOverride(env: Environment, p: string)
    requires env.acceptsNetModel(DefaultInterNetworkingModel)
    requires env.host.resolve(DefaultSysConfRuntimeConfiguration) == Success(p) && p != ""
    ensures Loaded(env) == LoadedFrom(DefaultRuntimeConfig, p, env)
  {
    DiscoverFindsFirst(DefaultConfigFilePaths(), env.host.resolve, 0);
  }

  /** When the override does not resolve and the package default does, the package default is read. */
  lemma LoadFallsBackToPackageDefault(env: Environment, p: string)
    requires env.acceptsNetModel(DefaultInterNetworkingModel)
    requires env.host.resolve(DefaultSysConfRuntimeConfiguration).Failure?
    requires env.host.resolve(DefaultRuntimeConfiguration) == Success(p) && p != ""
    ensures Loaded(env) == LoadedFrom(DefaultRuntimeConfig, p, env)
  {
    DiscoverFindsFirst(DefaultConfigFilePaths(), env.host.resolve, 1);
  }

  /** A file that was found but does not decode aborts the load. */
  lemma LoadDecodeFailureIsFatal(env: Environment, p: string, data: string)
    requires env.acceptsNetModel(DefaultInterNetworkingModel)
    requires DefaultConfigFile(env.host.resolve) == Success(p) && p != ""
    requires env.readFile(p) == Success(data) && env.decode(data).Failure?
    ensures Loaded(env) == (DefaultRuntimeConfig, Some(DecodeFailed(env.decode(data).error)))
  {
  }

  /** A found file naming a network model that virtcontainers rejects aborts the load. */
  lemma LoadRejectsNetworkModel(env: Environment, p: string, data: string, t: TomlConfig)
    requires env.acceptsNetModel(DefaultInterNetworkingModel)
    requires DefaultConfigFile(env.host.resolve) == Success(p) && p != ""
    requires env.readFile(p) == Success(data) && env.decode(data) == Success(t)
    requires t.runtime.interNetworkModel != "" && !env.acceptsNetModel(t.runtime.interNetworkModel)
    ensures Loaded(env) == (DefaultRuntimeConfig, Some(InvalidNetworkModel(t.runtime.interNetworkModel)))
  {
  }

  /**
   * A found file that decodes and names an accepted model, or none, is
   * overlaid by `updateRuntimeConfig`: its model, if any, is set, a failing
   * `qemu` table is the error, and otherwise the `qemu` table is the
   * hypervisor configuration and the factory flag is copied.
   */
  lemma LoadAppliesFile(env: Environment, p: string, data: string, t: TomlConfig)
    requires env.acceptsNetModel(DefaultInterNetworkingModel)
    requires DefaultConfigFile(env.host.resolve) == Success(p) && p != ""
    requires env.readFile(p) == Success(data) && env.decode(data) == Success(t)
    requires t.runtime.interNetworkModel == "" || env.acceptsNetModel(t.runtime.interNetworkModel)
    ensures var m := t.runtime.interNetworkModel;
            Loaded(env).0.interNetworkModel == (if m == "" then Some(DefaultInterNetworkingModel) else Some(m))
    ensures Loaded(env).1.Some? <==>
              QemuHypervisorTableType in t.hypervisor
              && NewQemuHypervisorConfig(t.hypervisor[QemuHypervisorTableType], env.host).Failure?
    ensures Loaded(env).1.None? ==> Loaded(env).0.factoryConfig.template == t.factory.template
    ensures Loaded(env).1.None? && QemuHypervisorTableType in t.hypervisor ==>
              Success(Loaded(env).0.hypervisorConfig)
              == NewQemuHypervisorConfig(t.hypervisor[QemuHypervisorTableType], env.host)
    ensures Loaded(env).1.None? && QemuHypervisorTableType !in t.hypervisor ==>
              Loaded(env).0.hypervisorConfig == DefaultHypervisorConfig
  {
  }

  /** An error of the hypervisor table is reported with the path of the file that was read. */
  lemma LoadTableErrorNamesFile(env: Environment, p: string, data: string, t: TomlConfig)
    requires env.acceptsNetModel(DefaultInterNetworkingModel)
    requires DefaultConfigFile(env.host.resolve) == Success(p) && p != ""
    requires env.readFile(p) == Success(data) && env.decode(data) == Success(t)
    requires t.runtime.interNetworkModel == "" || env.acceptsNetModel(t.runtime.interNetworkModel)
    requires QemuHypervisorTableType in t.hypervisor
    requires NewQemuHypervisorConfig(t.hypervisor[QemuHypervisorTableType], env.host).Failure?
    ensures Loaded(env).1
         == Some(InFile(p, NewQemuHypervisorConfig(t.hypervisor[QemuHypervisorTableType], env.host).error))
  {
  }

  /**
   * A file whose only setting is `default_memory = 4096` under
   * `[hypervisor.qemu]`: loading succeeds exactly when the default hypervisor
   * and kernel paths resolve, and then the whole result is known: the
   * defaults with the memory-only hypervisor configuration and VM memory 4096.
   */
  lemma LoadMemoryOverride(env: Environment, p: string, data: string)
    requires env.acceptsNetModel(DefaultInterNetworkingModel)
    requires DefaultConfigFile(env.host.resolve) == Success(p) && p != ""
    requires env.readFile(p) == Success(data)
    requires env.decode(data) == Success(TomlConfig(
               map[QemuHypervisorTableType := EmptyHypervisor.(defaultMemSz := 4096)],
               Runtime(false, ""), Factory(false)))
    requires 1 <= env.host.numCPUs <= MaxInt32
    ensures Loaded(env).1.None? <==>
              env.host.resolve(DefaultHypervisorPath).Success? && env.host.resolve(DefaultKernelPath).Success?
    ensures Loaded(env).1.None? ==>
              Loaded(env) == (DefaultRuntimeConfig.(
                hypervisorConfig := MemoryOnlyConfig(env.host, env.host.resolve(DefaultHypervisorPath).value,
                                                     env.host.resolve(DefaultKernelPath).value),
                vmMemory := 4096), None)
  {
    var h := EmptyHypervisor.(defaultMemSz := 4096);
    var t := TomlConfig(map[QemuHypervisorTableType := h], Runtime(false, ""), Factory(false));
    assert Loaded(env) == Updated(DefaultRuntimeConfig, p, t, env.host);
    MemoryOnlyHypervisor(env.host);
  }

  /**
   * The compiled-in configuration as a memory-only table leaves it, given the
   * resolved binary and kernel paths: memory 4096, the initrd unset and max
   * vCPUs bounded by the host and QEMU.
   */
  function MemoryOnlyConfig(host: Host, hypervisorPath: string, kernelPath: string): HypervisorConfig
    requires 1 <= host.numCPUs
  {
    DefaultHypervisorConfig.(
      hypervisorPath := hypervisorPath,
      kernelPath := kernelPath,
      initrdPath := "",
      defaultMemSz := 4096,
      defaultMaxVCPUs := Min(host.numCPUs, host.maxQemuVCPUs as int) as uint32)
  }

  /** The hypervisor configuration derived from a `[hypervisor.qemu]` table that sets only `default_memory = 4096`. */
  lemma MemoryOnlyHypervisor(host: Host)
    requires 1 <= host.numCPUs <= MaxInt32
    ensures var r := NewQemuHypervisorConfig(EmptyHypervisor.(defaultMemSz := 4096), host);
            && (r.Success? <==> host.resolve(DefaultHypervisorPath).Success? && host.resolve(DefaultKernelPath).Success?)
            && (r.Success? ==> r.value == MemoryOnlyConfig(host, host.resolve(DefaultHypervisorPath).value,
                                                             host.resolve(DefaultKernelPath).value))
  {
    var h := EmptyHypervisor.(defaultMemSz := 4096);
    assert InitrdPath(h, host) == Success("") && ImagePath(h, host) == Success("");
    assert FirmwarePath(h, host) == Success("");
    assert BlockDeviceDriver(h) == Success(VirtioSCSI);
    var r := NewQemuHypervisorConfig(h, host);
    if HypervisorPath(h, host).Success? && KernelPath(h, host).Success? {
      assert r.Success?;
      NewQemuHypervisorConfigFields(h, host);
      Accelerators.NormalizedAcceleratorsOfEmpty();
    }
  }
}
