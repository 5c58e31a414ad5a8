/** From a Switch to the validated data of the generated ZTP script: the loops that validate volumes, mounts and
    containers, and a declarative account of what they accept and build. */
module ZtpBuilder {
  import opened Text

  datatype SecurityContext = SecurityContext(privileged: bool, runAsUser: Option<int>, runAsGroup: Option<int>)
  datatype Mount = Mount(volume: string, path: string, readOnly: bool)
  datatype Container = Container(
    name: string, image: string, command: seq<string>, args: seq<string>, mounts: seq<Mount>,
    hostPid: bool, security: Option<SecurityContext>, inject: bool)
  datatype Volume = Volume(name: string, hostPath: Option<string>)
  datatype Switch = Switch(name: string, hostname: string, containers: seq<Container>, volumes: seq<Volume>,
                           nextBoot: string)

  /** The operator's control kubeconfig: its configured path and, when the file is readable, its base64 text. */
  datatype Kubeconfig = Kubeconfig(path: string, encoded: Option<string>)

  datatype ContainerData = ContainerData(
    name: string, image: string, hostPid: bool, privileged: bool, dockerUser: string, mounts: seq<string>,
    inject: bool, encoded: string, credential: string,
    entrypoint: string, command: seq<string>, args: seq<string>, failure: string)
  datatype TemplateData = TemplateData(switchName: string, hostname: string, configureOnie: bool,
                                       containers: seq<ContainerData>)

  predicate Absolute(path: string) {
    path != "" && path[0] == '/'
  }

  lemma AbsoluteIs(path: string)
    ensures Absolute(path) <==> "/" <= path
  {
  }

  // ---------- what is valid ----------

  predicate ValidVolumes(vs: seq<Volume>) {
    && (forall i :: 0 <= i < |vs| ==> vs[i].name != "" && vs[i].hostPath.Some? && Absolute(vs[i].hostPath.value))
    && (forall i, j :: 0 <= i < j < |vs| ==> vs[i].name != vs[j].name)
  }

  predicate Declared(vs: seq<Volume>, name: string) {
    exists i :: 0 <= i < |vs| && vs[i].name == name
  }

  predicate ValidMounts(mounts: seq<Mount>, vs: seq<Volume>) {
    && (forall i :: 0 <= i < |mounts| ==> Declared(vs, mounts[i].volume) && Absolute(mounts[i].path))
    && (forall i, j :: 0 <= i < j < |mounts| ==> mounts[i].path != mounts[j].path)
  }

  predicate HasUser(c: Container) {
    c.security.Some? && c.security.value.runAsUser.Some?
  }

  predicate ValidUser(c: Container) {
    c.security.Some? && c.security.value.runAsGroup.Some? ==> c.security.value.runAsUser.Some?
  }

  predicate ValidContainer(c: Container, vs: seq<Volume>) {
    ValidUser(c) && ValidMounts(c.mounts, vs) && (c.inject ==> HasUser(c))
  }

  predicate Injects(sw: Switch) {
    exists i :: 0 <= i < |sw.containers| && sw.containers[i].inject
  }

  function HostnameOf(sw: Switch): string {
    if sw.hostname != "" then sw.hostname else sw.name
  }

  predicate Valid(sw: Switch, kube: Kubeconfig) {
    && HostnameOf(sw) != "" && sw.nextBoot in {"", "None", "InstallOS"}
    && (sw.containers != [] ==> ValidVolumes(sw.volumes))
    && (Injects(sw) ==> kube.path != "" && kube.encoded.Some?)
    && (forall i :: 0 <= i < |sw.containers| ==> ValidContainer(sw.containers[i], sw.volumes))
  }

  // ---------- what is built ----------

  /** The host path of the volume with that name. */
  function HostPath(vs: seq<Volume>, name: string): string {
    if vs == [] then ""
    else if vs[0].name == name && vs[0].hostPath.Some? then vs[0].hostPath.value
    else HostPath(vs[1..], name)
  }

  function MountText(vs: seq<Volume>, m: Mount): string {
    HostPath(vs, m.volume) + ":" + m.path + ":" + ModeText(m)
  }

  function MountTexts(vs: seq<Volume>, mounts: seq<Mount>): seq<string> {
    seq(|mounts|, i requires 0 <= i < |mounts| => MountText(vs, mounts[i]))
  }

  function DockerUser(c: Container): string {
    if !HasUser(c) then ""
    else
      var s := c.security.value;
      Itoa(s.runAsUser.value) + if s.runAsGroup.Some? then ":" + Itoa(s.runAsGroup.value) else ""
  }

  function CredentialPath(c: Container): string {
    "/etc/sonic-operator/credentials/" + c.name + "/control-kubeconfig"
  }

  function Data(c: Container, vs: seq<Volume>, encoded: string): ContainerData {
    ContainerData(
      c.name, c.image, c.hostPid, c.security.Some? && c.security.value.privileged, DockerUser(c),
      MountTexts(vs, c.mounts),
      c.inject, encoded, if c.inject then CredentialPath(c) else "",
      if c.command != [] then c.command[0] else "", if c.command != [] then c.command[1..] else [], c.args,
      "sonic-operator: container " + c.name + " failed; continuing")
  }

  function Encoded(sw: Switch, kube: Kubeconfig): string {
    if Injects(sw) && kube.encoded.Some? then kube.encoded.value else ""
  }

  function Built(sw: Switch, kube: Kubeconfig): TemplateData {
    TemplateData(sw.name, HostnameOf(sw), sw.nextBoot == "InstallOS",
                 seq(|sw.containers|, i requires 0 <= i < |sw.containers| => Data(sw.containers[i], sw.volumes,
                     Encoded(sw, kube))))
  }

  /** A valid mount comes from the one declared volume of its name. */
  lemma {:induction false} MountFromUniqueVolume(vs: seq<Volume>, name: string) returns (i: nat)
    requires ValidVolumes(vs) && Declared(vs, name)
    ensures i < |vs| && vs[i].name == name && HostPath(vs, name) == vs[i].hostPath.value && Absolute(HostPath(vs, name))
    ensures forall j :: 0 <= j < |vs| && vs[j].name == name ==> j == i
  {
    i :| i < |vs| && vs[i].name == name;
    HostPathAt(vs, i);
  }

  lemma {:induction false} HostPathAt(vs: seq<Volume>, i: nat)
    requires ValidVolumes(vs) && i < |vs|
    ensures HostPath(vs, vs[i].name) == vs[i].hostPath.value
  {
    if i > 0 {
      assert vs[0].name != vs[i].name;
      HostPathAt(vs[1..], i - 1);
    }
  }

  function ModeText(m: Mount): string {
    if m.readOnly then "ro" else "rw"
  }

  /** A mount word splits back into host path, mount path and mode exactly when neither path contains a colon, which the
      builder does not check. */
  lemma MountSplitsBackIff(vs: seq<Volume>, m: Mount)
    ensures Split(MountText(vs, m), ':') == [HostPath(vs, m.volume), m.path, ModeText(m)]
            <==> ':' !in HostPath(vs, m.volume) && ':' !in m.path
  {
    hide HostPath, Split;
    var parts := [HostPath(vs, m.volume), m.path, ModeText(m)];
    assert parts[1..] == [m.path, ModeText(m)] && parts[1..][1..] == [ModeText(m)];
    assert Join(parts[1..][1..], ':') == ModeText(m);
    assert Join(parts[1..], ':') == m.path + [':'] + ModeText(m);
    assert MountText(vs, m) == Join(parts, ':');
    SplitInvertsJoinIff(parts, ':');
    if FreeOf(parts, ':') {
      assert ':' !in parts[0] && ':' !in parts[1];
    }
  }

  /** `containerDockerUser`: an error exactly when a group comes without a user. */
  function ContainerDockerUser(c: Container): (r: Option<string>)
    ensures r.Some? <==> ValidUser(c)
    ensures r.Some? ==> r.value == DockerUser(c)
  {
    if c.security.None? then Some("")
    else
      var s := c.security.value;
      if s.runAsGroup.Some? && s.runAsUser.None? then None
      else if s.runAsUser.None? then Some("")
      else if s.runAsGroup.None? then Some(Itoa(s.runAsUser.value))
      else Some(Itoa(s.runAsUser.value) + ":" + Itoa(s.runAsGroup.value))
  }

  method HostPathVolumes(vs: seq<Volume>) returns (r: Option<map<string, string>>)
    ensures r.Some? <==> ValidVolumes(vs)
    ensures r.Some? ==> forall name :: name in r.value <==> Declared(vs, name)
    ensures r.Some? ==> forall name :: name in r.value ==> r.value[name] == HostPath(vs, name)
  {
    hide HostPath, Absolute;
    var result: map<string, string> := map[];
    for k := 0 to |vs|
      invariant forall i :: 0 <= i < k ==> vs[i].name != "" && vs[i].hostPath.Some? && Absolute(vs[i].hostPath.value)
      invariant forall i, j :: 0 <= i < j < k ==> vs[i].name != vs[j].name
      invariant forall i :: 0 <= i < k ==> vs[i].name in result && result[vs[i].name] == vs[i].hostPath.value
      invariant forall name :: name in result ==> exists i :: 0 <= i < k && vs[i].name == name
    {
      var v := vs[k];
      if v.name == "" {
        return None;
      }
      if v.name in result {
        return None;
      }
      if v.hostPath.None? {
        return None;
      }
      AbsoluteIs(v.hostPath.value);
      if !("/" <= v.hostPath.value) {
        return None;
      }
      result := result[v.name := v.hostPath.value];
    }
    forall name | name in result
      ensures result[name] == HostPath(vs, name)
    {
      var i :| 0 <= i < |vs| && vs[i].name == name;
      HostPathAt(vs, i);
    }
    r := Some(result);
  }

  method ContainerVolumeMounts(mounts: seq<Mount>, volumes: map<string, string>, ghost vs: seq<Volume>)
    returns (r: Option<seq<string>>)
    requires forall name :: name in volumes <==> Declared(vs, name)
    requires forall name :: name in volumes ==> volumes[name] == HostPath(vs, name)
    ensures r.Some? <==> ValidMounts(mounts, vs)
    ensures r.Some? ==> |r.value| == |mounts| && forall i :: 0 <= i < |mounts| ==>
              r.value[i] == MountText(vs, mounts[i])
  {
    hide Declared, HostPath, Absolute;
    var result: seq<string> := [];
    var paths: set<string> := {};
    for k := 0 to |mounts|
      invariant |result| == k && forall i :: 0 <= i < k ==> result[i] == MountText(vs, mounts[i])
      invariant forall i :: 0 <= i < k ==> Declared(vs, mounts[i].volume) && Absolute(mounts[i].path)
      invariant forall i, j :: 0 <= i < j < k ==> mounts[i].path != mounts[j].path
      invariant paths == set i | 0 <= i < k :: mounts[i].path
    {
      var m := mounts[k];
      AbsoluteIs(m.path);
      if m.volume !in volumes || !("/" <= m.path) {
        return None;
      }
      if m.path in paths {
        return None;
      }
      paths := paths + {m.path};
      var mode := if m.readOnly then "ro" else "rw";
      var text := volumes[m.volume] + ":" + m.path + ":" + mode;
      assert text == MountText(vs, m);
      result := result + [text];
    }
    r := Some(result);
  }

  /** The kubeconfig loop: read once some container asks for it, and again only while it is empty. */
  method ReadKubeconfig(cs: seq<Container>, kube: Kubeconfig) returns (r: Option<string>)
    ensures r.Some? <==> ((exists i :: 0 <= i < |cs| && cs[i].inject) ==> kube.path != "" && kube.encoded.Some?)
    ensures r.Some? ==> r.value == if exists i :: 0 <= i < |cs| && cs[i].inject then kube.encoded.value else ""
  {
    var encoded := "";
    for k := 0 to |cs|
      invariant (exists i :: 0 <= i < k && cs[i].inject) ==>
                  kube.path != "" && kube.encoded.Some? && encoded == kube.encoded.value
      invariant !(exists i :: 0 <= i < k && cs[i].inject) ==> encoded == ""
    {
      if cs[k].inject && encoded == "" {
        if kube.path == "" || kube.encoded.None? {
          return None;
        }
        encoded := kube.encoded.value;
      }
    }
    r := Some(encoded);
  }

  /** The builder accepts a Switch exactly when it is valid, and then keeps number and order of the containers. */
  method BuildTemplateData(sw: Switch, kube: Kubeconfig) returns (r: Option<TemplateData>)
    ensures r.Some? <==> Valid(sw, kube)
    ensures r.Some? ==> r.value == Built(sw, kube)
  {
    var hostname := sw.hostname;
    if hostname == "" {
      hostname := sw.name;
    }
    if hostname == "" {
      return None;
    }
    var configureOnie := false;
    if sw.nextBoot == "InstallOS" {
      configureOnie := true;
    } else if sw.nextBoot != "" && sw.nextBoot != "None" {
      return None;
    }
    var volumes: map<string, string> := map[];
    if sw.containers != [] {
      var declared := HostPathVolumes(sw.volumes);
      if declared.None? {
        return None;
      }
      volumes := declared.value;
    }
    var encoded := ReadKubeconfig(sw.containers, kube);
    if encoded.None? {
      return None;
    }
    var cs := BuildContainers(sw.containers, volumes, sw.volumes, encoded.value);
    if cs.None? {
      return None;
    }
    assert encoded.value == Encoded(sw, kube);
    r := Some(TemplateData(sw.name, hostname, configureOnie, cs.value));
  }

  method BuildContainers(cs: seq<Container>, volumes: map<string, string>, ghost vs: seq<Volume>, encoded: string)
    returns (r: Option<seq<ContainerData>>)
    requires cs != [] ==> forall name :: name in volumes <==> Declared(vs, name)
    requires cs != [] ==> forall name :: name in volumes ==> volumes[name] == HostPath(vs, name)
    ensures r.Some? <==> forall i :: 0 <= i < |cs| ==> ValidContainer(cs[i], vs)
    ensures r.Some? ==> r.value == seq(|cs|, i requires 0 <= i < |cs| => Data(cs[i], vs, encoded))
  {
    hide MountText, CredentialPath, ValidMounts, HostPath, Declared, Itoa;
    var out: seq<ContainerData> := [];
    for k := 0 to |cs|
      invariant |out| == k
      invariant forall i :: 0 <= i < k ==> ValidContainer(cs[i], vs) && out[i] == Data(cs[i], vs, encoded)
    {
      var c := cs[k];
      var user := ContainerDockerUser(c);
      if user.None? {
        return None;
      }
      var mounts := ContainerVolumeMounts(c.mounts, volumes, vs);
      if mounts.None? {
        return None;
      }
      var privileged := false;
      if c.security.Some? {
        privileged := c.security.value.privileged;
      }
      var entrypoint: string, command: seq<string> := "", [];
      if |c.command| > 0 {
        entrypoint, command := c.command[0], c.command[1..];
      }
      var credential := "";
      if c.inject {
        if c.security.None? || c.security.value.runAsUser.None? {
          return None;
        }
        credential := CredentialPath(c);
      }
      assert mounts.value == MountTexts(vs, c.mounts);
      out := out + [ContainerData(c.name, c.image, c.hostPid, privileged, user.value, mounts.value, c.inject, encoded,
                                  credential,
                                  entrypoint, command, c.args,
                                    "sonic-operator: container " + c.name + " failed; continuing")];
    }
    r := Some(out);
  }
}
