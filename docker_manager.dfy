/** `DockerManager`: the `docker` command lines behind the container tabs, and writing a
    Dockerfile. Every command goes through `run_command` and its result comes back as it is. */
module DockerManager {
  import opened Wrappers
  import opened Text
  import opened Paths
  import opened ShellWords
  import opened CmdRunner
  import opened FileSystems

  const BUILD_ERROR := "Invalid Dockerfile path"
  const DOCKERFILE := "Dockerfile"

  /** The command lines of the five plain `docker` operations: a fixed subcommand, and for
      three of them the caller's text appended after one blank, unquoted and unchecked. */
  const LIST_IMAGES_COMMAND := "docker images"
  const LIST_CONTAINERS_COMMAND := "docker ps"

  function SearchCommand(term: string): string {
    "docker search " + term
  }

  function PullCommand(imageName: string): string {
    "docker pull " + imageName
  }

  function StopCommand(containerId: string): string {
    "docker stop " + containerId
  }

  /** `list_images` */
  function ListImages(shell: Shell): CommandResult {
    RunCommand(shell, LIST_IMAGES_COMMAND)
  }

  /** `search_hub` */
  function SearchHub(term: string, shell: Shell): CommandResult {
    RunCommand(shell, SearchCommand(term))
  }

  /** `pull_image` */
  function PullImage(imageName: string, shell: Shell): CommandResult {
    RunCommand(shell, PullCommand(imageName))
  }

  /** `list_containers` */
  function ListContainers(shell: Shell): CommandResult {
    RunCommand(shell, LIST_CONTAINERS_COMMAND)
  }

  /** `stop_container` */
  function StopContainer(containerId: string, shell: Shell): CommandResult {
    RunCommand(shell, StopCommand(containerId))
  }

  lemma DockerWordWellFormed()
    ensures WellFormed(Bare("docker"))
  {
  }

  /** `docker` followed by one more word is read back as those two words. */
  lemma DockerPairArgv(word: string)
    requires WellFormed(Bare(word))
    ensures Words("docker " + word) == ["docker", word]
  {
    DockerWordWellFormed();
    ArgPair(Bare("docker"), Bare(word));
    assert "docker" + " " + word == "docker " + word;
    WordsOfJoinArgs([Bare("docker"), Bare(word)]);
  }

  /** A blank at the end of a command line adds no word. */
  lemma TrailingBlank(args: seq<Arg>)
    requires AllWellFormed(args) && args != []
    ensures Words(JoinArgs(args) + " ") == Texts(args)
  {
    if |args| == 1 {
      WordsOfArg(args[0], " ");
      assert Words(" ") == Words(" "[1..]);
      assert " "[1..] == [];
      assert Texts(args) == [args[0].text];
    } else {
      var rest := JoinArgs(args[1..]);
      assert JoinArgs(args) + " " == Render(args[0]) + (" " + (rest + " "));
      WordsOfArg(args[0], " " + (rest + " "));
      assert (" " + (rest + " "))[1..] == rest + " ";
      TrailingBlank(args[1..]);
      assert Texts(args) == [args[0].text] + Texts(args[1..]);
    }
  }

  /** `docker` receives the subcommand and then the argument as one more word, or nothing
      more when the argument is empty: this layer does not refuse an empty argument. */
  lemma SubcommandArgv(subcommand: string, arg: string)
    requires WellFormed(Bare(subcommand))
    requires arg != "" ==> WellFormed(Bare(arg))
    ensures Words("docker " + subcommand + " " + arg)
            == ["docker", subcommand] + (if arg == "" then [] else [arg])
  {
    DockerWordWellFormed();
    ArgPair(Bare("docker"), Bare(subcommand));
    assert "docker" + " " + subcommand == "docker " + subcommand;
    var pair := [Bare("docker"), Bare(subcommand)];
    if arg == "" {
      assert "docker " + subcommand + " " + arg == JoinArgs(pair) + " ";
      TrailingBlank(pair);
    } else {
      var args := pair + [Bare(arg)];
      JoinArgsAppend(pair, [Bare(arg)]);
      WordsOfJoinArgs(args);
    }
  }

  /** `list_images` hands `docker` the single word `images`. */
  lemma ListImagesArgv()
    ensures Words(LIST_IMAGES_COMMAND) == ["docker", "images"]
  {
    assert WellFormed(Bare("images"));
    DockerPairArgv("images");
    assert "docker " + "images" == "docker images";
  }

  /** `list_containers` hands `docker` the single word `ps`. */
  lemma ListContainersArgv()
    ensures Words(LIST_CONTAINERS_COMMAND) == ["docker", "ps"]
  {
    assert WellFormed(Bare("ps"));
    DockerPairArgv("ps");
    assert "docker " + "ps" == "docker ps";
  }

  /** `search_hub` hands `docker` `search` and the term, or no term at all when it is empty. */
  lemma SearchHubArgv(term: string)
    requires term != "" ==> WellFormed(Bare(term))
    ensures Words(SearchCommand(term)) == ["docker", "search"] + (if term == "" then [] else [term])
  {
    assert WellFormed(Bare("search"));
    SubcommandArgv("search", term);
    assert "docker " + "search" + " " + term == "docker search " + term;
  }

  /** `pull_image` hands `docker` `pull` and the image name, or no name when it is empty. */
  lemma PullImageArgv(imageName: string)
    requires imageName != "" ==> WellFormed(Bare(imageName))
    ensures Words(PullCommand(imageName)) == ["docker", "pull"] + (if imageName == "" then [] else [imageName])
  {
    assert WellFormed(Bare("pull"));
    SubcommandArgv("pull", imageName);
    assert "docker " + "pull" + " " + imageName == "docker pull " + imageName;
  }

  /** `stop_container` hands `docker` `stop` and the id, or no id when it is empty. */
  lemma StopContainerArgv(containerId: string)
    requires containerId != "" ==> WellFormed(Bare(containerId))
    ensures Words(StopCommand(containerId)) == ["docker", "stop"] + (if containerId == "" then [] else [containerId])
  {
    assert WellFormed(Bare("stop"));
    SubcommandArgv("stop", containerId);
    assert "docker " + "stop" + " " + containerId == "docker stop " + containerId;
  }

  /** The `docker build` command line: the tag as given, the Dockerfile path and its parent
      directory (the build context) each in quotes. */
  function BuildCommand(dockerfilePath: string, tag: string): string {
    "docker build -t " + tag + " -f \"" + dockerfilePath + "\" \"" + Dirname(dockerfilePath) + "\""
  }

  /** `build_image`: refuses a path that is not an existing file without running anything;
      otherwise runs the build command and hands back the runner's result. */
  function BuildImage(fs: FileSystem, dockerfilePath: string, tag: string, shell: Shell): (r: CommandResult)
    reads fs
    ensures !fs.IsFile(dockerfilePath) ==> r == CommandResult(false, BUILD_ERROR)
    ensures fs.IsFile(dockerfilePath) ==> r == RunCommand(shell, BuildCommand(dockerfilePath, tag))
    ensures r.success ==> fs.IsFile(dockerfilePath)
                          && shell(BuildCommand(dockerfilePath, tag)).Exited?
                          && shell(BuildCommand(dockerfilePath, tag)).code == 0
  {
    if fs.IsFile(dockerfilePath) then RunCommand(shell, BuildCommand(dockerfilePath, tag))
    else CommandResult(false, BUILD_ERROR)
  }

  const BUILD_ARGS := [Bare("docker"), Bare("build"), Bare("-t")]

  lemma BuildArgsWritten()
    ensures AllWellFormed(BUILD_ARGS)
    ensures JoinArgs(BUILD_ARGS) == "docker build -t"
    ensures Texts(BUILD_ARGS) == ["docker", "build", "-t"]
  {
    assert WellFormed(BUILD_ARGS[0]) && WellFormed(BUILD_ARGS[1]) && WellFormed(BUILD_ARGS[2]);
    ArgPair(Bare("build"), Bare("-t"));
    JoinArgsAppend([Bare("docker")], [Bare("build"), Bare("-t")]);
    assert [Bare("docker")] + [Bare("build"), Bare("-t")] == BUILD_ARGS;
  }

  function BuildTailArgs(dockerfilePath: string, tag: string): seq<Arg> {
    [Bare(tag), Bare("-f"), Quoted(dockerfilePath), Quoted(Dirname(dockerfilePath))]
  }

  lemma BuildTailText(dockerfilePath: string, tag: string)
    ensures var p, d := dockerfilePath, Dirname(dockerfilePath);
      JoinArgs(BuildTailArgs(dockerfilePath, tag))
      == tag + " " + ("-f" + " " + ("\"" + p + "\"" + " " + ("\"" + d + "\"")))
  {
    var p, d := dockerfilePath, Dirname(dockerfilePath);
    assert BuildTailArgs(dockerfilePath, tag) == [Bare(tag)] + ([Bare("-f")] + [Quoted(p), Quoted(d)]);
    ArgPair(Quoted(p), Quoted(d));
    JoinArgsAppend([Bare("-f")], [Quoted(p), Quoted(d)]);
    JoinArgsAppend([Bare(tag)], [Bare("-f")] + [Quoted(p), Quoted(d)]);
  }

  /** The f-string of `build_image`, regrouped one argument at a time. */
  lemma BuildCommandRegrouped(p: string, tag: string, d: string)
    ensures "docker build -t " + tag + " -f \"" + p + "\" \"" + d + "\""
            == "docker build -t" + " " + (tag + " " + ("-f" + " " + ("\"" + p + "\"" + " " + ("\"" + d + "\""))))
  {
    var q := "\"";
    var x1 := q + d + q;
    var x2 := q + p + q + " " + x1;
    assert "\" \"" + d + "\"" == q + " " + x1;
    assert "docker build -t " + tag + " -f \"" + p + "\" \"" + d + "\""
           == "docker build -t " + tag + " -f \"" + p + (q + " " + x1);
    assert " -f \"" + p + (q + " " + x1) == " " + ("-f" + " " + x2);
  }

  lemma BuildCommandText(dockerfilePath: string, tag: string)
    ensures JoinArgs(BUILD_ARGS + BuildTailArgs(dockerfilePath, tag)) == BuildCommand(dockerfilePath, tag)
  {
    BuildArgsWritten();
    BuildTailText(dockerfilePath, tag);
    JoinArgsAppend(BUILD_ARGS, BuildTailArgs(dockerfilePath, tag));
    BuildCommandRegrouped(dockerfilePath, tag, Dirname(dockerfilePath));
  }

  /** `docker` receives `build -t` with the tag, `-f` with the Dockerfile path, and the
      Dockerfile's parent directory as the build context, each path as one argument. */
  lemma BuildCommandArgv(dockerfilePath: string, tag: string)
    requires WellFormed(Bare(tag)) && WellFormed(Quoted(dockerfilePath))
    ensures Words(BuildCommand(dockerfilePath, tag))
            == ["docker", "build", "-t", tag, "-f", dockerfilePath, Dirname(dockerfilePath)]
  {
    var d := Dirname(dockerfilePath);
    var tail := BuildTailArgs(dockerfilePath, tag);
    assert forall k :: 0 <= k < |d| ==> d[k] == dockerfilePath[k];
    assert WellFormed(Quoted(d));
    assert WellFormed(Bare("-f"));
    BuildArgsWritten();
    BuildCommandText(dockerfilePath, tag);
    WordsOfJoinArgs(BUILD_ARGS + tail);
    TextsAppend(BUILD_ARGS, tail);
  }

  /** A Dockerfile `<dir>/Dockerfile` is built with `<dir>` as the context: building
      `/tmp/proj/Dockerfile` as `myapp:latest` runs
      `docker build -t myapp:latest -f "/tmp/proj/Dockerfile" "/tmp/proj"`. */
  lemma BuildCommandInDirectory(dir: string, tag: string)
    requires dir != "" && dir[|dir| - 1] != '/'
    ensures BuildCommand(dir + "/" + DOCKERFILE, tag)
            == "docker build -t " + tag + " -f \"" + dir + "/Dockerfile\" \"" + dir + "\""
  {
    DirnameOfChild(dir, DOCKERFILE);
    var p := dir + "/" + DOCKERFILE;
    assert " -f \"" + p == " -f \"" + dir + "/Dockerfile";
  }

  /** Where `create_dockerfile` writes: `<path>/Dockerfile` when the path is an existing
      directory, the path itself otherwise. */
  function DockerfileTarget(fs: FileSystem, path: string): (target: string)
    reads fs
    ensures fs.IsDir(path) ==> target == PathJoin(path, DOCKERFILE)
    ensures !fs.IsDir(path) ==> target == path
  {
    if fs.IsDir(path) then PathJoin(path, DOCKERFILE) else path
  }

  /** A Dockerfile saved into a directory is built with that directory as its context. */
  lemma DockerfileTargetInDirectory(fs: FileSystem, dir: string)
    requires fs.IsDir(dir) && dir != "" && !EndsWith(dir, "/")
    ensures Dirname(DockerfileTarget(fs, dir)) == dir
    ensures DockerfileTarget(fs, dir) == dir + "/" + DOCKERFILE
  {
    assert dir[|dir| - 1] != '/' by {
      assert dir[|dir| - 1..] == [dir[|dir| - 1]];
    }
    DirnameOfChild(dir, DOCKERFILE);
  }

  /** `create_dockerfile`: writes `content` to the resolved target, replacing what was
      there; `osError` is the failure the operating system reports for that write, if any. */
  method CreateDockerfile(fs: FileSystem, path: string, content: string, osError: Option<string>)
    returns (result: CommandResult)
    requires fs.Valid()
    requires DockerfileTarget(fs, path) == "" || fs.IsDir(DockerfileTarget(fs, path)) ==> osError.Some?
    modifies fs
    ensures fs.Valid()
    ensures fs.dirs == old(fs.dirs)
    ensures osError.None? ==>
              && fs.files == old(fs.files)[old(DockerfileTarget(fs, path)) := content]
              && result == CommandResult(true, "Dockerfile saved to " + old(DockerfileTarget(fs, path)))
    ensures osError.Some? ==>
              fs.files == old(fs.files) && result == CommandResult(false, osError.value)
  {
    var target := DockerfileTarget(fs, path);
    match osError
    case None =>
      fs.files := fs.files[target := content];
      result := CommandResult(true, "Dockerfile saved to " + target);
    case Some(message) =>
      result := CommandResult(false, message);
  }

  /** Saving a Dockerfile into a directory and then building it: the file holds exactly the
      content written, and the build runs with that directory as its context. */
  method SaveThenBuild(fs: FileSystem, dir: string, content: string, tag: string, shell: Shell)
    returns (saved: CommandResult, built: CommandResult)
    requires fs.Valid() && fs.IsDir(dir) && !EndsWith(dir, "/")
    requires !fs.IsDir(dir + "/" + DOCKERFILE)
    modifies fs
    ensures saved == CommandResult(true, "Dockerfile saved to " + dir + "/" + DOCKERFILE)
    ensures dir + "/" + DOCKERFILE in fs.files
    ensures fs.files[dir + "/" + DOCKERFILE] == content
    ensures built == RunCommand(shell, BuildCommand(dir + "/" + DOCKERFILE, tag))
    ensures Dirname(dir + "/" + DOCKERFILE) == dir
  {
    DockerfileTargetInDirectory(fs, dir);
    ghost var target := DockerfileTarget(fs, dir);
    saved := CreateDockerfile(fs, dir, content, None);
    assert fs.files == old(fs.files)[target := content];
    built := BuildImage(fs, dir + "/" + DOCKERFILE, tag, shell);
  }
}
