/** The commands of the generated script: the words the template writes for each, and what a shell reads back. */
module ZtpScript {
  import opened Text
  import opened Shell
  import opened ShellGrammar
  import opened ZtpBuilder

  /** The simple commands of the script; `k` is the position of the container. */
  datatype Role =
    | OnieDir | OnieMountUnit | OnieServiceUnit | Reload | EnableMount | EnableService
    | SetHostname | SaveConfig
    | InstallRoot(k: nat) | InstallDir(k: nat) | Print(k: nat) | Decode(k: nat) | Chown(k: nat) | Chmod(k: nat)
    | Pull(k: nat) | Remove(k: nat) | True(k: nat) | Start(k: nat) | Echo(k: nat)
    | SyncDisks

  function QuotedAll(texts: seq<string>): seq<Word> {
    seq(|texts|, i requires 0 <= i < |texts| => Quoted(texts[i]))
  }

  /** One ` -v 'host:path:mode'` for each mount. */
  function MountFlags(mounts: seq<string>): seq<Word> {
    if mounts == [] then [] else MountFlags(mounts[..|mounts| - 1]) + [Lit("-v"), Quoted(mounts[|mounts| - 1])]
  }

  function When(b: bool, ws: seq<Word>): seq<Word> {
    if b then ws else []
  }

  /** The in-container path of the credential, `/var/run/sonic-operator/control-kubeconfig`. */
  function InnerKubeconfig(): string {
    "/var/run/sonic-operator" + "/control-kubeconfig"
  }

  /** The `docker run` line up to the entrypoint. */
  function FrontWords(d: ContainerData): seq<Word> {
    [Lit("docker"), Lit("run"), Lit("-d"), Lit("--name"), Quoted(d.name), Lit("--network"), Lit("host")]
    + When(d.hostPid, [Lit("--pid"), Lit("host")])
    + When(d.privileged, [Lit("--privileged")])
    + [Lit("--restart"), Lit("unless-stopped")]
    + When(d.dockerUser != "", [Lit("--user"), Quoted(d.dockerUser)])
    + MountFlags(d.mounts)
    + When(d.inject, [Lit("-e"), Lit("KUBECONFIG=" + InnerKubeconfig()), Lit("-v"),
                      Quoted(d.credential + ":" + InnerKubeconfig() + ":ro")])
  }

  /** Its end: image, rest of the command, arguments. */
  function BackWords(d: ContainerData): seq<Word> {
    [Quoted(d.image)] + QuotedAll(d.command) + QuotedAll(d.args)
  }

  /** The `docker run` line. */
  function RunLine(c: ContainerData): seq<Word> {
    FrontWords(c) + When(c.entrypoint != "", [Lit("--entrypoint"), Quoted(c.entrypoint)]) + BackWords(c)
  }

  predicate IsContainerRole(role: Role) {
    role.InstallRoot? || role.InstallDir? || role.Print? || role.Decode? || role.Chown? || role.Chmod?
    || role.Pull? || role.Remove? || role.True? || role.Start? || role.Echo?
  }

  /** The line of each container command. */
  function ContainerLine(c: ContainerData, role: Role): Line
    requires IsContainerRole(role)
  {
    match role
    case InstallRoot(_) => Line([Lit("install"), Lit("-d"), Lit("-m"), Lit("0700"),
                                 Lit("/etc/sonic-operator/credentials")], [])
    case InstallDir(_) => Line([Lit("install"), Lit("-d"), Lit("-m"), Lit("0700"),
                                Quoted("/etc/sonic-operator/credentials/" + c.name)], [])
    case Print(_) => Line([Lit("printf"), Quoted("%s"), Quoted(c.encoded)], [])
    case Decode(_) => Line([Lit("base64"), Lit("-d")], [RedirectText("", ">", Quoted(c.credential))])
    case Chown(_) => Line([Lit("chown"), Lit(c.dockerUser), Quoted(c.credential)], [])
    case Chmod(_) => Line([Lit("chmod"), Lit("0600"), Quoted(c.credential)], [])
    case Pull(_) => Line([Lit("docker"), Lit("pull"), Quoted(c.image)], [])
    case Remove(_) =>
      Line([Lit("docker"), Lit("rm"), Lit("-f"), Quoted(c.name)],
           [RedirectText("", ">", Lit("/dev/null")), RedirectText("2", ">&", Lit("1"))])
    case True(_) => Line([Lit("true")], [])
    case Start(_) => Line(RunLine(c), [])
    case Echo(_) => Line([Lit("echo"), Quoted(c.failure)], [RedirectText("", ">&", Lit("2"))])
  }

  /** The lines outside the container blocks, from the hostname on. */
  function HostLine(d: TemplateData, role: Role): Line
    requires role.SetHostname? || role.SaveConfig? || role.SyncDisks?
  {
    match role
    case SetHostname => Line([Lit("config"), Lit("hostname"), Quoted(d.hostname)], [])
    case SaveConfig => Line([Lit("config"), Lit("save"), Lit("-y")], [])
    case SyncDisks => Line([Lit("sync")], [])
  }

  // ---------- what the Switch asks for ----------

  /** The host file of a container's credential, and where the container sees it. */
  function CredentialFile(c: Container): string {
    "/etc/sonic-operator/credentials/" + c.name + "/control-kubeconfig"
  }

  function InnerFile(): string {
    "/var/run/sonic-operator/control-kubeconfig"
  }

  /** The user, and the group after a colon. */
  function UserArg(c: Container): string {
    if c.security.None? || c.security.value.runAsUser.None? then ""
    else if c.security.value.runAsGroup.None? then Itoa(c.security.value.runAsUser.value)
    else Itoa(c.security.value.runAsUser.value) + ":" + Itoa(c.security.value.runAsGroup.value)
  }

  function MountArg(m: Mount, vs: seq<Volume>): string {
    HostPath(vs, m.volume) + ":" + m.path + if m.readOnly then ":ro" else ":rw"
  }

  lemma ArgsAre(c: Container)
    ensures CredentialFile(c) == CredentialPath(c) && UserArg(c) == DockerUser(c)
  {
    hide Itoa;
  }

  lemma InnerFileIs()
    ensures InnerFile() == InnerKubeconfig()
  {
  }

  /** Two flag words for each mount of the container. */
  function MountArgs(mounts: seq<Mount>, vs: seq<Volume>): seq<string> {
    if mounts == [] then [] else MountArgs(mounts[..|mounts| - 1], vs) + ["-v", MountArg(mounts[|mounts| - 1], vs)]
  }

  /** Fixed flags, optional flags, one word a mount, the credential mount. */
  function FrontArgs(c: Container, vs: seq<Volume>): seq<string> {
    ["docker", "run", "-d", "--name", c.name, "--network", "host"]
    + (if c.hostPid then ["--pid", "host"] else [])
    + (if c.security.Some? && c.security.value.privileged then ["--privileged"] else [])
    + ["--restart", "unless-stopped"]
    + (if UserArg(c) != "" then ["--user", UserArg(c)] else [])
    + MountArgs(c.mounts, vs)
    + (if c.inject then ["-e", "KUBECONFIG=" + InnerFile(), "-v", CredentialFile(c) + ":" + InnerFile() + ":ro"]
       else [])
  }

  /** The command's first element overrides the entrypoint. */
  function EntrypointArgs(c: Container): seq<string> {
    if c.command != [] then ["--entrypoint", c.command[0]] else []
  }

  /** Image, rest of the command, arguments. */
  function BackArgs(c: Container): seq<string> {
    [c.image] + (if c.command != [] then c.command[1..] else []) + c.args
  }

  /** The documented argument vector of a container. */
  function IntendedArgv(c: Container, vs: seq<Volume>): seq<string> {
    FrontArgs(c, vs) + EntrypointArgs(c) + BackArgs(c)
  }

  predicate AllNoNul(xs: seq<string>) {
    forall i :: 0 <= i < |xs| ==> NoNul(xs[i])
  }

  /** Every text a container contributes to its lines is free of NUL, as every string of the API is. */
  predicate CleanContainer(c: Container, vs: seq<Volume>) {
    && NoNul(c.name) && NoNul(c.image) && AllNoNul(c.command) && AllNoNul(c.args)
    && (forall i :: 0 <= i < |c.mounts| ==> NoNul(MountText(vs, c.mounts[i])))
  }

  // ---------- every word is readable ----------

  predicate WordsReadable(ws: seq<Word>) {
    forall i :: 0 <= i < |ws| ==> ws[i].Readable()
  }

  lemma ReadableConcat(a: seq<Word>, b: seq<Word>)
    requires WordsReadable(a) && WordsReadable(b)
    ensures WordsReadable(a + b)
  {
  }

  lemma TextsConcat(a: seq<Word>, b: seq<Word>)
    ensures Texts(a + b) == Texts(a) + Texts(b)
  {
  }

  lemma PlainLiterals1()
    ensures PlainWord("docker") && PlainWord("run") && PlainWord("-d") && PlainWord("--name") && PlainWord("--network")
    ensures PlainWord("host")
    ensures PlainWord("--pid") && PlainWord("--privileged") && PlainWord("--restart") && PlainWord("unless-stopped")
  {
  }

  lemma PlainLiterals2()
    ensures PlainWord("--user") && PlainWord("-v") && PlainWord("-e") && PlainWord("--entrypoint")
  {
  }

  lemma PlainLiterals3()
    ensures PlainWord("KUBECONFIG=" + InnerKubeconfig()) && NoNul(InnerKubeconfig())
  {
    assert PlainWord("KUBECONFIG=") && PlainWord("/var/run/sonic-operator") && PlainWord("/control-kubeconfig");
  }

  lemma PlainLiterals4()
    ensures PlainWord("install") && PlainWord("-m") && PlainWord("0700") && PlainWord("printf") && PlainWord("base64")
    ensures PlainWord("chown") && PlainWord("chmod") && PlainWord("0600") && PlainWord("pull") && PlainWord("rm")
    ensures PlainWord("-f")
    ensures PlainWord("true") && PlainWord("echo")
  {
  }

  lemma PlainLiterals6()
    ensures PlainWord("/dev/null") && PlainWord("1") && PlainWord("2") && Digits("2")
    ensures PlainWord("config") && PlainWord("hostname") && PlainWord("save") && PlainWord("-y") && PlainWord("sync")
  {
  }

  lemma PlainLiterals5()
    ensures PlainWord("/etc/sonic-operator/credentials")
  {
  }

  /** The unquoted chown operand is one plain, non-empty word. */
  lemma DockerUserPlain(c: Container)
    requires HasUser(c)
    ensures PlainWord(DockerUser(c)) && NoNul(DockerUser(c))
  {
    ItoaCharacters(c.security.value.runAsUser.value);
    if c.security.value.runAsGroup.Some? {
      ItoaCharacters(c.security.value.runAsGroup.value);
    }
  }

  lemma NoNulConcat(a: string, b: string)
    requires NoNul(a) && NoNul(b)
    ensures NoNul(a + b)
  {
  }

  lemma NoNulLiterals()
    ensures NoNul("/etc/sonic-operator/credentials/") && NoNul("/control-kubeconfig")
    ensures NoNul(":") && NoNul(":ro")
  {
  }

  lemma CredentialNoNul(c: Container)
    requires NoNul(c.name)
    ensures NoNul(CredentialPath(c)) && NoNul(CredentialPath(c) + ":" + InnerKubeconfig() + ":ro")
  {
    hide NoNul;
    NoNulLiterals();
    PlainLiterals3();
    NoNulConcat("/etc/sonic-operator/credentials/", c.name);
    NoNulConcat("/etc/sonic-operator/credentials/" + c.name, "/control-kubeconfig");
    NoNulConcat(CredentialPath(c), ":");
    NoNulConcat(CredentialPath(c) + ":", InnerKubeconfig());
    NoNulConcat(CredentialPath(c) + ":" + InnerKubeconfig(), ":ro");
  }

  lemma {:induction false} MountFlagsReadable(mounts: seq<string>)
    requires AllNoNul(mounts)
    ensures WordsReadable(MountFlags(mounts))
  {
    hide PlainWord;
    if mounts != [] {
      MountFlagsReadable(mounts[..|mounts| - 1]);
      PlainLiterals2();
      ReadableConcat(MountFlags(mounts[..|mounts| - 1]), [Lit("-v"), Quoted(mounts[|mounts| - 1])]);
    }
  }

  lemma FrontReadable(c: Container, vs: seq<Volume>, encoded: string)
    requires ValidContainer(c, vs) && CleanContainer(c, vs)
    ensures WordsReadable(FrontWords(Data(c, vs, encoded)))
  {
    hide PlainWord, NoNul, MountText, CredentialPath, DockerUser, HasUser, ValidContainer, InnerKubeconfig, MountFlags;
    var d := Data(c, vs, encoded);
    PlainLiterals1();
    PlainLiterals2();
    PlainLiterals3();
    CredentialOf(c, vs, encoded);
    UserNoNul(c, vs);
    MountFlagsReadable(d.mounts);
    var w1 := [Lit("docker"), Lit("run"), Lit("-d"), Lit("--name"), Quoted(c.name), Lit("--network"), Lit("host")];
    var w2 := w1 + When(d.hostPid, [Lit("--pid"), Lit("host")]) + When(d.privileged, [Lit("--privileged")])
        + [Lit("--restart"), Lit("unless-stopped")];
    assert WordsReadable(w2);
    var w3 := w2 + When(d.dockerUser != "", [Lit("--user"), Quoted(d.dockerUser)]);
    ReadableConcat(w3, MountFlags(d.mounts));
    var w4 := When(d.inject, [Lit("-e"), Lit("KUBECONFIG=" + InnerKubeconfig()), Lit("-v"),
                              Quoted(d.credential + ":" + InnerKubeconfig() + ":ro")]);
    ReadableConcat(w3 + MountFlags(d.mounts), w4);
  }

  lemma BackReadable(c: Container, vs: seq<Volume>, encoded: string)
    requires CleanContainer(c, vs)
    ensures var d := Data(c, vs, encoded);
            WordsReadable(When(d.entrypoint != "", [Lit("--entrypoint"), Quoted(d.entrypoint)]))
              && WordsReadable(BackWords(d))
  {
    hide PlainWord, NoNul, MountText, CredentialPath, DockerUser;
    PlainLiterals2();
  }

  /** Every word of the `docker run` line of an accepted container is readable. */
  lemma RunLineReadable(c: Container, vs: seq<Volume>, encoded: string)
    requires ValidContainer(c, vs) && CleanContainer(c, vs)
    ensures WordsReadable(RunLine(Data(c, vs, encoded)))
  {
    hide WordsReadable, Data, FrontWords, BackWords, When, CleanContainer, ValidContainer;
    var d := Data(c, vs, encoded);
    FrontReadable(c, vs, encoded);
    BackReadable(c, vs, encoded);
    var entry := When(d.entrypoint != "", [Lit("--entrypoint"), Quoted(d.entrypoint)]);
    ReadableConcat(FrontWords(d), entry);
    ReadableConcat(FrontWords(d) + entry, BackWords(d));
  }

  lemma CredentialOf(c: Container, vs: seq<Volume>, encoded: string)
    requires NoNul(c.name)
    ensures c.inject ==> NoNul(Data(c, vs, encoded).credential + ":" + InnerKubeconfig() + ":ro")
  {
    hide NoNul, MountText, CredentialPath, DockerUser;
    CredentialNoNul(c);
  }

  lemma UserNoNul(c: Container, vs: seq<Volume>)
    ensures NoNul(DockerUser(c))
    ensures DockerUser(c) != "" <==> HasUser(c)
  {
    if HasUser(c) {
      DockerUserPlain(c);
    }
  }

  // ---------- the argument vector ----------

  lemma MountArgIs(m: Mount, vs: seq<Volume>)
    ensures MountArg(m, vs) == MountText(vs, m)
  {
    hide HostPath;
    var a, b := HostPath(vs, m.volume) + ":" + m.path, if m.readOnly then "ro" else "rw";
    assert a + ":" + b == a + (":" + b);
  }

  lemma {:induction false} MountFlagTexts(mounts: seq<Mount>, vs: seq<Volume>)
    ensures Texts(MountFlags(MountTexts(vs, mounts))) == MountArgs(mounts, vs)
    decreases |mounts|
  {
    hide MountText;
    if mounts != [] {
      var init := mounts[..|mounts| - 1];
      var all, most := MountTexts(vs, mounts), MountTexts(vs, init);
      assert all[..|all| - 1] == most;
      MountFlagTexts(init, vs);
      MountArgIs(mounts[|mounts| - 1], vs);
      TextsConcat(MountFlags(most), [Lit("-v"), Quoted(all[|all| - 1])]);
    }
  }

  /** The argument vector the rendered line carries. */
  lemma RunLineTexts(c: Container, vs: seq<Volume>, encoded: string)
    ensures Texts(RunLine(Data(c, vs, encoded))) == IntendedArgv(c, vs)
            <==> (c.command == [] || c.command[0] != "")
  {
    var d := Data(c, vs, encoded);
    var front := FrontArgs(c, vs);
    var back := BackArgs(c);
    FrontTexts(c, vs, encoded);
    BackTexts(c, vs, encoded);
    var entry := if d.entrypoint != "" then ["--entrypoint", d.entrypoint] else [];
    assert Texts(RunLine(d)) == front + entry + back by {
      RunLineSplit(c, vs, encoded);
    }
    if c.command != [] && c.command[0] == "" {
      assert |front + entry + back| != |front + EntrypointArgs(c) + back|;
    }
  }

  lemma RunLineSplit(c: Container, vs: seq<Volume>, encoded: string)
    requires Texts(FrontWords(Data(c, vs, encoded))) == FrontArgs(c, vs)
    ensures var d := Data(c, vs, encoded);
            Texts(RunLine(d)) == FrontArgs(c, vs) + (if d.entrypoint != "" then ["--entrypoint", d.entrypoint] else [])
              + Texts(BackWords(d))
  {
    hide FrontArgs, Data, FrontWords, BackWords;
    var d := Data(c, vs, encoded);
    var entry := When(d.entrypoint != "", [Lit("--entrypoint"), Quoted(d.entrypoint)]);
    TextsConcat(FrontWords(d) + entry, BackWords(d));
    TextsConcat(FrontWords(d), entry);
    assert Texts(entry) == if d.entrypoint != "" then ["--entrypoint", d.entrypoint] else [];
  }

  lemma FrontTexts(c: Container, vs: seq<Volume>, encoded: string)
    ensures Texts(FrontWords(Data(c, vs, encoded))) == FrontArgs(c, vs)
  {
    hide MountText, CredentialPath, DockerUser, HasUser, MountFlags, MountArgs, InnerKubeconfig, CredentialFile,
      UserArg, InnerFile;
    var d := Data(c, vs, encoded);
    UserNoNul(c, vs);
    ArgsAre(c);
    InnerFileIs();
    MountFlagTexts(c.mounts, vs);
    var a := [Lit("docker"), Lit("run"), Lit("-d"), Lit("--name"), Quoted(d.name), Lit("--network"), Lit("host")];
    var b := When(d.hostPid, [Lit("--pid"), Lit("host")]);
    var e := When(d.privileged, [Lit("--privileged")]);
    var f := [Lit("--restart"), Lit("unless-stopped")];
    var g := When(d.dockerUser != "", [Lit("--user"), Quoted(d.dockerUser)]);
    var h := MountFlags(d.mounts);
    var i := When(d.inject, [Lit("-e"), Lit("KUBECONFIG=" + InnerKubeconfig()), Lit("-v"),
                             Quoted(d.credential + ":" + InnerKubeconfig() + ":ro")]);
    TextsConcat(a + b + e + f + g + h, i);
    TextsConcat(a + b + e + f + g, h);
    TextsConcat(a + b + e + f, g);
    TextsConcat(a + b + e, f);
    TextsConcat(a + b, e);
    TextsConcat(a, b);
    assert FrontWords(d) == a + b + e + f + g + h + i;
    assert Texts(a) == ["docker", "run", "-d", "--name", c.name, "--network", "host"];
    assert Texts(b) == if c.hostPid then ["--pid", "host"] else [];
    assert Texts(e) == if c.security.Some? && c.security.value.privileged then ["--privileged"] else [];
    assert Texts(f) == ["--restart", "unless-stopped"];
    assert Texts(g) == if UserArg(c) != "" then ["--user", UserArg(c)] else [];
    assert Texts(i) == if c.inject then ["-e", "KUBECONFIG=" + InnerFile(), "-v",
                                         CredentialFile(c) + ":" + InnerFile() + ":ro"] else [];
  }

  lemma BackTexts(c: Container, vs: seq<Volume>, encoded: string)
    ensures Texts(BackWords(Data(c, vs, encoded))) == BackArgs(c)
  {
    hide MountText, CredentialPath, DockerUser, HasUser;
  }

  /** For every Switch the builder accepts and every container in it, with arbitrary NUL-free texts: a shell reads the
      rendered `docker run` line as exactly the intended argument vector — if and only if the command is empty or has a
      non-empty first element (an empty one drops `--entrypoint`). */
  lemma DockerRunReadsAsIntendedIff(sw: Switch, kube: Kubeconfig, k: nat)
    requires Valid(sw, kube) && k < |sw.containers| && CleanContainer(sw.containers[k], sw.volumes)
    ensures var c, line := sw.containers[k], ContainerLine(Built(sw, kube).containers[k], Start(k));
            && ReadLine(LineText(line)).Some?
            && (ReadLine(LineText(line)) == Some(Argv(IntendedArgv(c, sw.volumes), []))
                <==> (c.command == [] || c.command[0] != ""))
  {
    hide Data, IntendedArgv, ReadLine, LineText, CleanContainer, ValidContainer, RunLine, Texts, Line.Valid,
      Word.Readable;
    var c := sw.containers[k];
    var d := Data(c, sw.volumes, Encoded(sw, kube));
    BuiltAt(sw, kube, k);
    RunLineValid(c, sw.volumes, Encoded(sw, kube));
    LineReadsBack(Line(RunLine(d), []));
    RunLineTexts(c, sw.volumes, Encoded(sw, kube));
    assert Redirects([]) == [];
  }

  lemma RunLineValid(c: Container, vs: seq<Volume>, encoded: string)
    requires ValidContainer(c, vs) && CleanContainer(c, vs)
    ensures Line(RunLine(Data(c, vs, encoded)), []).Valid()
  {
    hide Data, CleanContainer, ValidContainer, Word.Readable, MountFlags, InnerKubeconfig, BackWords;
    RunLineReadable(c, vs, encoded);
    assert RunLine(Data(c, vs, encoded))[0] == Lit("docker");
  }

  lemma BuiltAt(sw: Switch, kube: Kubeconfig, k: nat)
    requires Valid(sw, kube) && k < |sw.containers|
    ensures k < |Built(sw, kube).containers|
    ensures Built(sw, kube).containers[k] == Data(sw.containers[k], sw.volumes, Encoded(sw, kube))
    ensures ValidContainer(sw.containers[k], sw.volumes)
  {
    hide Data;
  }

  /** Every command of a container's block is a line the shell can read. */
  lemma ContainerLineValid(sw: Switch, kube: Kubeconfig, k: nat, role: Role)
    requires Valid(sw, kube) && k < |sw.containers| && CleanContainer(sw.containers[k], sw.volumes)
    requires NoNul(Encoded(sw, kube))
    requires IsContainerRole(role) && (role.Chown? ==> sw.containers[k].inject)
    ensures ContainerLine(Built(sw, kube).containers[k], role).Valid()
  {
    hide PlainWord, NoNul, Digits, MountText, CredentialPath, DockerUser, RunLine, HasUser, MountTexts, Valid, Built,
      ValidContainer;
    var c := sw.containers[k];
    BuiltAt(sw, kube, k);
    PlainLiterals1();
    PlainLiterals4();
    PlainLiterals5();
    PlainLiterals6();
    CredentialNoNul(c);
    OtherTexts(c);
    if role.Chown? {
      InjectorHasUser(c, sw.volumes);
      DockerUserPlain(c);
    }
    if role.Start? {
      RunLineValid(c, sw.volumes, Encoded(sw, kube));
    }
  }

  lemma InjectorHasUser(c: Container, vs: seq<Volume>)
    requires ValidContainer(c, vs) && c.inject
    ensures HasUser(c)
  {
  }

  // ---------- what every command is meant to be ----------

  /** The commands that place a credential. */
  predicate Places(role: Role) {
    role.InstallRoot? || role.InstallDir? || role.Print? || role.Decode? || role.Chown? || role.Chmod?
  }

  /** The command a container role stands for, in terms of the Switch. */
  function Intended(c: Container, vs: seq<Volume>, encoded: string, role: Role): Argv {
    match role
    case InstallRoot(_) => Argv(["install", "-d", "-m", "0700", "/etc/sonic-operator/credentials"], [])
    case InstallDir(_) => Argv(["install", "-d", "-m", "0700", "/etc/sonic-operator/credentials/" + c.name], [])
    case Print(_) => Argv(["printf", "%s", encoded], [])
    case Decode(_) => Argv(["base64", "-d"], [Redirect("", ">", CredentialFile(c))])
    case Chown(_) => Argv(["chown", UserArg(c), CredentialFile(c)], [])
    case Chmod(_) => Argv(["chmod", "0600", CredentialFile(c)], [])
    case Pull(_) => Argv(["docker", "pull", c.image], [])
    case Remove(_) => Argv(["docker", "rm", "-f", c.name], [Redirect("", ">", "/dev/null"), Redirect("2", ">&", "1")])
    case True(_) => Argv(["true"], [])
    case Start(_) => Argv(IntendedArgv(c, vs), [])
    case Echo(_) =>
      Argv(["echo", "sonic-operator: container " + c.name + " failed; continuing"], [Redirect("", ">&", "2")])
    case _ => Argv([], [])
  }

  predicate StartsProperly(c: Container) {
    c.command == [] || c.command[0] != ""
  }

  lemma PlacingMeansIntended(c: Container, vs: seq<Volume>, encoded: string, role: Role)
    requires Places(role) && c.inject
    ensures ContainerLine(Data(c, vs, encoded), role).Meaning() == Intended(c, vs, encoded, role)
  {
    hide MountText, DockerUser, CredentialPath, UserArg, CredentialFile, MountTexts, RunLine, IntendedArgv;
    ArgsAre(c);
    var m, t := ContainerLine(Data(c, vs, encoded), role).Meaning(), Intended(c, vs, encoded, role);
    assert m.args == t.args;
    assert m.redirects == t.redirects;
  }

  lemma RunningMeansIntended(c: Container, vs: seq<Volume>, encoded: string, role: Role)
    requires role.Pull? || role.Remove? || role.True? || role.Echo?
    ensures ContainerLine(Data(c, vs, encoded), role).Meaning() == Intended(c, vs, encoded, role)
  {
    hide MountText, DockerUser, CredentialPath, UserArg, CredentialFile, MountTexts, RunLine, IntendedArgv;
    var m, t := ContainerLine(Data(c, vs, encoded), role).Meaning(), Intended(c, vs, encoded, role);
    assert m.args == t.args;
    assert m.redirects == t.redirects;
  }

  lemma LineMeansIntended(c: Container, vs: seq<Volume>, encoded: string, role: Role)
    requires IsContainerRole(role) && !role.Start? && (Places(role) ==> c.inject)
    ensures ContainerLine(Data(c, vs, encoded), role).Meaning() == Intended(c, vs, encoded, role)
  {
    hide ContainerLine, Intended, Data, Line.Meaning;
    if Places(role) {
      PlacingMeansIntended(c, vs, encoded, role);
    } else {
      RunningMeansIntended(c, vs, encoded, role);
    }
  }

  lemma StartMeansIntendedIff(c: Container, vs: seq<Volume>, encoded: string, k: nat)
    ensures ContainerLine(Data(c, vs, encoded), Start(k)).Meaning() == Intended(c, vs, encoded, Start(k))
            <==> StartsProperly(c)
  {
    hide Data, RunLine, IntendedArgv, Texts;
    RunLineTexts(c, vs, encoded);
    assert Redirects([]) == [];
  }

  /** For every accepted Switch, container and command of its block, with arbitrary NUL-free texts: a shell reads the
      rendered line as exactly the intended words and redirections (`docker run` under its condition). */
  lemma LineReadsAsIntendedIff(sw: Switch, kube: Kubeconfig, k: nat, role: Role)
    requires Valid(sw, kube) && k < |sw.containers| && CleanContainer(sw.containers[k], sw.volumes)
    requires NoNul(Encoded(sw, kube)) && IsContainerRole(role) && (Places(role) ==> sw.containers[k].inject)
    ensures var c := sw.containers[k];
            ReadLine(LineText(ContainerLine(Built(sw, kube).containers[k], role)))
              == Some(Intended(c, sw.volumes, Encoded(sw, kube), role))
            <==> (role.Start? ==> StartsProperly(c))
  {
    hide Line.Valid, Line.Meaning, ReadLine, LineText, Intended, ContainerLine, Data, CleanContainer, ValidContainer,
      Encoded;
    var c := sw.containers[k];
    BuiltAt(sw, kube, k);
    ContainerLineValid(sw, kube, k, role);
    LineReadsBack(ContainerLine(Built(sw, kube).containers[k], role));
    if role.Start? {
      StartMeansIntendedIff(c, sw.volumes, Encoded(sw, kube), role.k);
      StartIgnoresPosition(Built(sw, kube).containers[k], c, sw.volumes, Encoded(sw, kube), role.k, k);
    } else {
      LineMeansIntended(c, sw.volumes, Encoded(sw, kube), role);
    }
  }

  lemma StartIgnoresPosition(d: ContainerData, c: Container, vs: seq<Volume>, encoded: string, i: nat, k: nat)
    ensures ContainerLine(d, Start(i)) == ContainerLine(d, Start(k))
    ensures Intended(c, vs, encoded, Start(i)) == Intended(c, vs, encoded, Start(k))
  {
    hide RunLine, IntendedArgv;
  }

  /** What is printed into the credential is the operator's kubeconfig. */
  lemma InjectedText(sw: Switch, kube: Kubeconfig, k: nat)
    requires Valid(sw, kube) && k < |sw.containers| && sw.containers[k].inject
    ensures kube.encoded.Some? && Encoded(sw, kube) == kube.encoded.value
  {
    assert Injects(sw);
  }

  /** The unquoted chown operand of an injecting container is one non-empty word, its user and group. */
  lemma ChownOperand(sw: Switch, kube: Kubeconfig, k: nat)
    requires Valid(sw, kube) && k < |sw.containers| && CleanContainer(sw.containers[k], sw.volumes)
    requires NoNul(Encoded(sw, kube)) && sw.containers[k].inject
    ensures var c := sw.containers[k];
            && ReadLine(LineText(ContainerLine(Built(sw, kube).containers[k], Chown(k))))
               == Some(Argv(["chown", UserArg(c), CredentialFile(c)], []))
            && UserArg(c) != ""
  {
    hide ReadLine, LineText, DockerUser, CredentialPath, HasUser, CleanContainer, ValidContainer, UserArg,
      CredentialFile, ContainerLine;
    var c := sw.containers[k];
    BuiltAt(sw, kube, k);
    LineReadsAsIntendedIff(sw, kube, k, Chown(k));
    InjectorHasUser(c, sw.volumes);
    UserNoNul(c, sw.volumes);
    ArgsAre(c);
  }

  // ---------- the lines of the host ----------

  function IntendedHost(sw: Switch, role: Role): Argv
    requires role.SetHostname? || role.SaveConfig? || role.SyncDisks?
  {
    match role
    case SetHostname => Argv(["config", "hostname", if sw.hostname != "" then sw.hostname else sw.name], [])
    case SaveConfig => Argv(["config", "save", "-y"], [])
    case SyncDisks => Argv(["sync"], [])
  }

  lemma HostLineMeansIntended(sw: Switch, kube: Kubeconfig, role: Role)
    requires role.SetHostname? || role.SaveConfig? || role.SyncDisks?
    ensures HostLine(Built(sw, kube), role).Meaning() == IntendedHost(sw, role)
  {
    hide Data;
    var m, t := HostLine(Built(sw, kube), role).Meaning(), IntendedHost(sw, role);
    assert m.args == t.args;
    assert m.redirects == t.redirects;
  }

  lemma OtherTexts(c: Container)
    requires NoNul(c.name)
    ensures NoNul("/etc/sonic-operator/credentials/" + c.name) && NoNul("%s")
    ensures NoNul("sonic-operator: container " + c.name + " failed; continuing")
    ensures !c.inject ==> NoNul("")
  {
    NoNulLiterals();
    assert NoNul("sonic-operator: container ") && NoNul(" failed; continuing");
  }
}
