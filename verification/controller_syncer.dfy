/**
 Decision rules of the CSI controller syncer (controllers/syncer/csi_controller.go), which
 builds the controller's StatefulSet: the sidecar lookup by name, the sidecar image and
 pull policy, the health port default, the environment and volume mounts of each
 container, and the worker-thread flag derived from the number of CPUs.

 The CPU count is a parameter, and so is the driver's default image for a sidecar that the
 resource does not list (GetDefaultSidecarImageByName is not part of this model).
 */
module ControllerSyncer {
  import opened Wrappers
  import opened Strings
  import opened CsiDefaults

  const ControllerContainerName := "ibm-block-csi-controller"
  const ProvisionerContainerName := "csi-provisioner"
  const AttacherContainerName := "csi-attacher"
  const SnapshotterContainerName := "csi-snapshotter"
  const ResizerContainerName := "csi-resizer"
  const ReplicatorContainerName := "csi-addons-replicator"
  const VolumeGroupContainerName := "csi-volume-group"
  const LivenessProbeContainerName := "livenessprobe"

  /** The sidecars that reach the controller through its socket. */
  const SocketClients := {ProvisionerContainerName, AttacherContainerName, SnapshotterContainerName,
                          ResizerContainerName, ReplicatorContainerName, VolumeGroupContainerName}

  const SocketVolumeName := "socket-dir"
  const ControllerSocketVolumeMountPath := "/var/lib/csi/sockets/pluginproxy/"
  const LivenessProbeSocketVolumeMountPath := "/csi"
  const ControllerSocketPath := ControllerSocketVolumeMountPath + "csi.sock"
  const CSIEndpoint := "unix://" + ControllerSocketPath
  const DefaultLogLevel := "DEBUG"
  const PullIfNotPresent := "IfNotPresent"
  const DefaultHealthPort := 9808

  const CommonMaxWorkersFlag := "--worker-threads"
  const ResizerMaxWorkersFlag := "--workers"

  /** The parts of the IBMBlockCSI spec the syncer reads here. */
  datatype Driver = Driver(sidecars: seq<Sidecar>, healthPort: nat, enableCallHome: string,
                           odfVersionForCallHome: string, svcSshPort: nat)

  datatype EnvVar = EnvVar(name: string, value: string)

  datatype VolumeMount = VolumeMount(name: string, mountPath: string)

  /** The first sidecar with the name, if any. */
  function FirstNamed(sidecars: seq<Sidecar>, name: string): (r: Option<Sidecar>)
    ensures r.None? <==> forall i :: 0 <= i < |sidecars| ==> sidecars[i].name != name
    ensures r.Some? ==> exists i :: 0 <= i < |sidecars| && sidecars[i] == r.value
                                    && forall j :: 0 <= j < i ==> sidecars[j].name != name
    ensures r.Some? ==> r.value.name == name
  {
    if |sidecars| == 0 then None
    else if sidecars[0].name == name then Some(sidecars[0])
    else
      var r := FirstNamed(sidecars[1..], name);
      assert r.Some? ==> exists i :: 0 <= i < |sidecars| && sidecars[i] == r.value
                                     && forall j :: 0 <= j < i ==> sidecars[j].name != name by {
        if r.Some? {
          var i :| 0 <= i < |sidecars[1..]| && sidecars[1..][i] == r.value
                   && forall j :: 0 <= j < i ==> sidecars[1..][j].name != name;
          assert sidecars[i + 1] == r.value;
          assert forall j :: 0 <= j < i + 1 ==> sidecars[j].name != name by {
            forall j | 0 <= j < i + 1
              ensures sidecars[j].name != name
            {
              if j > 0 {
                assert sidecars[j] == sidecars[1..][j - 1];
              }
            }
          }
        }
      }
      r
  }

  /** getSidecarByName: the first listed sidecar with the name, or nil. */
  method GetSidecarByName(sidecars: seq<Sidecar>, name: string) returns (r: Option<Sidecar>)
    ensures r == FirstNamed(sidecars, name)
  {
    for i := 0 to |sidecars|
      invariant FirstNamed(sidecars, name) == FirstNamed(sidecars[i..], name)
    {
      if sidecars[i].name == name {
        return Some(sidecars[i]);
      }
      assert sidecars[i..][1..] == sidecars[i + 1..];
    }
    assert sidecars[|sidecars|..] == [];
    return None;
  }

  /** The image of a sidecar: `repository:tag` of the listed sidecar (the colon is written
      even for an empty tag), otherwise the driver's default image for the name. */
  function SidecarImage(sidecars: seq<Sidecar>, name: string, defaultImage: string -> string): string {
    var s := FirstNamed(sidecars, name);
    if s.Some? then s.value.repository + ":" + s.value.tag else defaultImage(name)
  }

  method GetSidecarImageByName(sidecars: seq<Sidecar>, name: string, defaultImage: string -> string)
    returns (image: string)
    ensures image == SidecarImage(sidecars, name, defaultImage)
  {
    var sidecar := GetSidecarByName(sidecars, name);
    if sidecar.Some? {
      return sidecar.value.repository + ":" + sidecar.value.tag;
    }
    return defaultImage(name);
  }

  /** The pull policy of a sidecar: the listed sidecar's own when it has one, otherwise
      IfNotPresent. */
  function SidecarPullPolicy(sidecars: seq<Sidecar>, name: string): (policy: string)
    ensures policy != ""
  {
    var s := FirstNamed(sidecars, name);
    if s.Some? && s.value.imagePullPolicy != "" then s.value.imagePullPolicy else PullIfNotPresent
  }

  method GetSidecarPullPolicy(sidecars: seq<Sidecar>, sidecarName: string) returns (policy: string)
    ensures policy == SidecarPullPolicy(sidecars, sidecarName)
  {
    var sidecar := GetSidecarByName(sidecars, sidecarName);
    if sidecar.Some? && sidecar.value.imagePullPolicy != "" {
      return sidecar.value.imagePullPolicy;
    }
    return PullIfNotPresent;
  }

  /** The first listed sidecar with the name decides the image and, when it has one, the
      pull policy. */
  lemma SidecarLookupMeaning(sidecars: seq<Sidecar>, name: string, defaultImage: string -> string, i: nat)
    requires i < |sidecars| && sidecars[i].name == name
    requires forall j :: 0 <= j < i ==> sidecars[j].name != name
    ensures SidecarImage(sidecars, name, defaultImage) == sidecars[i].repository + ":" + sidecars[i].tag
    ensures sidecars[i].imagePullPolicy != "" ==> SidecarPullPolicy(sidecars, name) == sidecars[i].imagePullPolicy
    ensures sidecars[i].imagePullPolicy == "" ==> SidecarPullPolicy(sidecars, name) == PullIfNotPresent
  {
    var r := FirstNamed(sidecars, name);
    var k :| 0 <= k < |sidecars| && sidecars[k] == r.value && forall j :: 0 <= j < k ==> sidecars[j].name != name;
    assert k == i;
  }

  /** An unlisted sidecar gets the driver's default image and IfNotPresent. */
  lemma UnlistedSidecarDefaults(sidecars: seq<Sidecar>, name: string, defaultImage: string -> string)
    requires forall j :: 0 <= j < |sidecars| ==> sidecars[j].name != name
    ensures SidecarImage(sidecars, name, defaultImage) == defaultImage(name)
    ensures SidecarPullPolicy(sidecars, name) == PullIfNotPresent
  {
  }

  /** The controller's health port: the resource's, or 9808 when it is unset. */
  function HealthPort(d: Driver): (port: nat)
    ensures port != 0
    ensures d.healthPort != 0 ==> port == d.healthPort
    ensures d.healthPort == 0 ==> port == DefaultHealthPort
  {
    if d.healthPort == 0 then DefaultHealthPort else d.healthPort
  }

  /** getEnvFor: the controller gets its endpoint, log level, call-home settings and SSH
      port; the six sidecars talking to it get the socket address; any other container
      gets nil. */
  function EnvFor(d: Driver, name: string): Option<seq<EnvVar>> {
    if name == ControllerContainerName then
      Some([EnvVar("CSI_ENDPOINT", CSIEndpoint),
            EnvVar("CSI_LOGLEVEL", DefaultLogLevel),
            EnvVar("ENABLE_CALL_HOME", d.enableCallHome),
            EnvVar("ODF_VERSION_FOR_CALL_HOME", d.odfVersionForCallHome),
            EnvVar("SVC_SSH_PORT", NatToString(d.svcSshPort))])
    else if name in SocketClients then
      Some([EnvVar("ADDRESS", ControllerSocketPath)])
    else None
  }

  /** getVolumeMountsFor: the socket directory, mounted where each container expects it. */
  function VolumeMountsFor(name: string): Option<seq<VolumeMount>> {
    if name == ControllerContainerName || name in SocketClients then
      Some([VolumeMount(SocketVolumeName, ControllerSocketVolumeMountPath)])
    else if name == LivenessProbeContainerName then
      Some([VolumeMount(SocketVolumeName, LivenessProbeSocketVolumeMountPath)])
    else None
  }

  /** Every container told the socket address mounts the socket directory, at the
      directory the address lies under. */
  lemma SocketAddressIsMounted(d: Driver, name: string)
    requires name in SocketClients
    ensures EnvFor(d, name) == Some([EnvVar("ADDRESS", ControllerSocketPath)])
    ensures VolumeMountsFor(name) == Some([VolumeMount(SocketVolumeName, ControllerSocketVolumeMountPath)])
    ensures HasPrefix(ControllerSocketPath, ControllerSocketVolumeMountPath)
  {
    assert name != ControllerContainerName by {
      assert name[0] == 'c' && ControllerContainerName[0] == 'i';
    }
    assert ControllerSocketPath[..|ControllerSocketVolumeMountPath|] == ControllerSocketVolumeMountPath;
  }

  /** The controller's environment carries the call-home settings as given and an SSH port
      that reads back as the configured number; a container without a socket mount gets
      no environment. */
  lemma ControllerEnvMeaning(d: Driver)
    ensures var env := EnvFor(d, ControllerContainerName).value;
            && |env| == 5
            && env[2] == EnvVar("ENABLE_CALL_HOME", d.enableCallHome)
            && env[3] == EnvVar("ODF_VERSION_FOR_CALL_HOME", d.odfVersionForCallHome)
            && env[4].name == "SVC_SSH_PORT" && ParseNat(env[4].value) == Some(d.svcSshPort)
    ensures forall n :: VolumeMountsFor(n).None? ==> EnvFor(d, n).None?
  {
    ParsePrinted(d.svcSshPort);
  }

  function Min(a: real, b: real): real { if a <= b then a else b }
  function Max(a: real, b: real): real { if a >= b then a else b }

  /** getMaxWorkersCount: half the CPUs, counting at most 32 CPUs, and at least 2, as Go's
      float64 arithmetic and int conversion compute it. */
  function MaxWorkersCount(cpuCount: nat): int {
    var maxWorkers := Min(cpuCount as real, 32.0) / 2.0;
    Max(maxWorkers, 2.0).Floor
  }

  /** The count is max(min(cpus, 32) div 2, 2), so it lies between 2 and 16. */
  lemma MaxWorkersBounds(cpuCount: nat)
    ensures var m := if cpuCount < 32 then cpuCount else 32;
            MaxWorkersCount(cpuCount) == if m / 2 < 2 then 2 else m / 2
    ensures 2 <= MaxWorkersCount(cpuCount) <= 16
  {
    var m := if cpuCount < 32 then cpuCount else 32;
    var h := m as real / 2.0;
    assert Min(cpuCount as real, 32.0) == m as real;
    assert (m / 2) as real <= h < (m / 2) as real + 1.0;
    if m / 2 >= 2 {
      assert Max(h, 2.0) == h;
      assert h.Floor == m / 2;
    } else {
      assert h < 2.0;
      assert Max(h, 2.0) == 2.0;
    }
  }

  /** getMaxWorkersFlag: `flag=count`. */
  function MaxWorkersFlag(flag: string, cpuCount: nat): string
    requires MaxWorkersCount(cpuCount) >= 0
  {
    flag + "=" + NatToString(MaxWorkersCount(cpuCount))
  }

  /** The flag splits at its one `=` into the flag name and a number that reads back as
      the worker count; both flags the syncer passes have this form. */
  lemma MaxWorkersFlagRoundTrip(flag: string, cpuCount: nat)
    requires '=' !in flag
    ensures MaxWorkersCount(cpuCount) >= 2
    ensures var parts := Split(MaxWorkersFlag(flag, cpuCount), '=');
            |parts| == 2 && parts[0] == flag && ParseNat(parts[1]) == Some(MaxWorkersCount(cpuCount))
  {
    MaxWorkersBounds(cpuCount);
    var n := MaxWorkersCount(cpuCount) as nat;
    var digits := NatToString(n);
    assert forall j :: 0 <= j < |digits| ==> digits[j] != '=';
    assert flag + "=" + digits == flag + ['='] + digits;
    SplitAtOne(flag, digits, '=');
    ParsePrinted(n);
  }

  /** Both flags the syncer passes, the common one and the resizer's, split back into
      their flag name and the worker count. */
  lemma SyncerFlagsRoundTrip(cpuCount: nat)
    ensures var parts := Split(MaxWorkersFlag(CommonMaxWorkersFlag, cpuCount), '=');
            |parts| == 2 && parts[0] == CommonMaxWorkersFlag && ParseNat(parts[1]) == Some(MaxWorkersCount(cpuCount))
    ensures var parts := Split(MaxWorkersFlag(ResizerMaxWorkersFlag, cpuCount), '=');
            |parts| == 2 && parts[0] == ResizerMaxWorkersFlag && ParseNat(parts[1]) == Some(MaxWorkersCount(cpuCount))
  {
    MaxWorkersFlagRoundTrip(CommonMaxWorkersFlag, cpuCount);
    MaxWorkersFlagRoundTrip(ResizerMaxWorkersFlag, cpuCount);
  }
}
