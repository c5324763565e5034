# CloudManager core, modelled in Dafny

CloudManager is a desktop tool that drives two external programs through the shell:
QEMU, to launch virtual machines and create disk images, and Docker, to list, search,
pull, build and stop images and containers. This project models the layer under the
GUI:

- `run_command` runs one command line through the shell. It folds the outcome into a
  `(success, output_or_error)` pair.
- `QemuManager.start_vm` and `create_disk_image` build the QEMU command lines.
- The seven `DockerManager` operations build the Docker command lines.
  `create_dockerfile` also writes a file.

Modules, one per file:

- `Text` (text.dfy): Python's `str.strip`, `endswith` and `sep.join`.
- `Paths` (paths.dfy): `posixpath.dirname` and two-argument `posixpath.join`.
- `ShellWords` (shell_words.dfy): how the shell cuts a command line into the arguments
  the program receives. Only blanks and double quotes are modelled. This reading is the
  reference reading every command builder is proved against: the argument vector that `docker`,
  `qemu-img` or `qemu-system-x86_64` actually gets.
- `Wrappers` (wrappers.dfy): `Option`.
- `FileSystems` (file_system.dfy): a class `FileSystem` holding the files (path to
  content) and the directories. `os.path.exists`, `isfile` and `isdir` are membership
  tests on it, and writing a file updates it in place.
- `CmdRunner` (cmd_runner.dfy): `run_command`. The shell is a parameter
  `Shell = string -> ProcessOutcome`: either the process exited with a status and two
  captured streams, or an exception with a text was raised.
- `QemuManager` (qemu_manager.dfy): `start_vm` is a method that builds `cmd_parts` by
  appending, exactly as the source does. Starting the detached process is a parameter
  `Launcher = string -> SpawnOutcome`. `create_disk_image` is a function.
- `DockerManager` (docker_manager.dfy): the command builders and `build_image` are
  functions. `create_dockerfile` is a method that modifies the `FileSystem`. Whether the
  operating system refuses the write is a parameter `osError: Option<string>`.

`search_hub`, `pull_image` and `stop_container` accept an empty argument
(`CloudManager/managers/docker_manager.py:23`, `29`, `75`); only the GUI refuses one
before calling them (`CloudManager/main.py:280`, `288`, `323`). So `SearchHubArgv`,
`PullImageArgv` and `StopContainerArgv` state that `docker` then receives the subcommand
alone.

## Model

| member | source | states |
|---|---|---|
| CmdRunner.RunCommand | CloudManager/utils/cmd_runner.py:4-24 | Success holds exactly when the process exited with status 0. Then the output is the stripped standard output. A non-zero exit gives the stripped standard error. Any other exception gives its text. Nothing escapes. |
| CmdRunner.RunCommandOutputTrimmed | CloudManager/utils/cmd_runner.py:20-22 | Whenever the process ran, the text handed back has no whitespace at either end, and stripping it again changes nothing. |
| CmdRunner.RunCommandOkExample | CloudManager/utils/cmd_runner.py:12-20 | Exit status 0 with standard output "ok\n" yields (true, "ok"). |
| CmdRunner.RunCommandBoomExample | CloudManager/utils/cmd_runner.py:21-22 | Exit status 1 with standard error "boom" yields (false, "boom"). |
| Text.StripLeft | CloudManager/utils/cmd_runner.py:20 | The result is a suffix of the input. Everything dropped is whitespace. The result does not start with whitespace. |
| Text.StripRight | CloudManager/utils/cmd_runner.py:20 | The result is a prefix of the input. Everything dropped is whitespace. The result does not end with whitespace. |
| Text.Strip | CloudManager/utils/cmd_runner.py:20-22 | The result is no longer than the input and has no whitespace at either end. |
| Text.StripUnique | CloudManager/utils/cmd_runner.py:20-22 | Stripping whitespace, then a trimmed text, then whitespace gives exactly that text: `strip` removes whitespace at the ends and nothing else. |
| Text.StripIdempotent | CloudManager/utils/cmd_runner.py:20-22 | Stripping twice is stripping once. |
| Text.JoinAppend | CloudManager/managers/qemu_manager.py:44 | Joining two non-empty lists equals joining each and putting the separator between them. |
| QemuManager.StartVm | CloudManager/managers/qemu_manager.py:9-60 | A missing or non-existent disk fails with the disk message and launches nothing. A valid disk with a given but non-existent ISO fails with the ISO message and launches nothing. Otherwise exactly the space-joined `cmd_parts` is launched. A successful launch reports "VM Launching: " and the command; a failed launch reports the exception's text. |
| QemuManager.VmCommandArgv | CloudManager/managers/qemu_manager.py:16-44 | The VM program receives, in order: `-m` and the RAM size only when one is given; `-smp` and the core count only when one is given; `-hda` and the disk path as one argument; `-cdrom` and the ISO path only when one is given. |
| QemuManager.NormalizeDiskName | CloudManager/managers/qemu_manager.py:67-68 | The name always ends in `.qcow2` or `.img`. A name already ending in either is kept. Any other name gets `.qcow2` appended. |
| QemuManager.NormalizeDiskNameIdempotent | CloudManager/managers/qemu_manager.py:67-68 | Normalising a normalised name changes nothing. |
| QemuManager.DiskImageArgv | CloudManager/managers/qemu_manager.py:62-71 | `qemu-img` receives `create -f qcow2`, then the normalised name as one argument, then the size followed by `G`. The format is qcow2 even for a `.img` name. |
| Paths.Dirname | CloudManager/managers/docker_manager.py:58 | The parent directory is a prefix of the path. It is empty for a path without '/'. It ends in '/' only when it consists of separators alone. |
| Paths.DirnameOfJoin | CloudManager/managers/docker_manager.py:39-58 | The parent of a name joined onto a directory is that directory, without its trailing separators unless it is the root. |
| Paths.DirnameOfChild | CloudManager/managers/docker_manager.py:58 | The parent of `dir/name` is `dir`. |
| ShellWords.WordsOfJoinArgs | CloudManager/utils/cmd_runner.py:12-15 | Well-formed arguments written bare or in double quotes and joined by blanks are read back by the shell as exactly their texts, in order. |
| ShellWords.JoinRenderGroups | CloudManager/managers/qemu_manager.py:44 | Joining the written groups of arguments with blanks is writing all their arguments in order. |
| DockerManager.ListImagesArgv | CloudManager/managers/docker_manager.py:17 | `docker` receives the single word `images`. |
| DockerManager.ListContainersArgv | CloudManager/managers/docker_manager.py:69 | `docker` receives the single word `ps`. |
| DockerManager.SubcommandArgv | CloudManager/managers/docker_manager.py:19-29 | `docker` followed by a subcommand and a caller's argument receives the subcommand and then that argument as one word, or no further word when the argument is empty. |
| DockerManager.SearchHubArgv | CloudManager/managers/docker_manager.py:23 | `docker` receives `search` and the term. An empty term is passed on as no term at all. |
| DockerManager.PullImageArgv | CloudManager/managers/docker_manager.py:29 | `docker` receives `pull` and the image name. An empty name is passed on as no name at all. |
| DockerManager.StopContainerArgv | CloudManager/managers/docker_manager.py:75 | `docker` receives `stop` and the container id. An empty id is passed on as no id at all. |
| DockerManager.BuildImage | CloudManager/managers/docker_manager.py:50-63 | A path that is not an existing file is refused with "Invalid Dockerfile path" and nothing runs. Otherwise the build command runs and its result is handed back. Success means the file existed and `docker` exited with status 0. |
| DockerManager.BuildCommandArgv | CloudManager/managers/docker_manager.py:57-61 | `docker` receives `build -t` and the tag, `-f` and the Dockerfile path, then the Dockerfile's parent directory as the build context. Each path is one argument. |
| DockerManager.BuildCommandInDirectory | CloudManager/managers/docker_manager.py:58-60 | Building `<dir>/Dockerfile` uses `<dir>` itself as the quoted context. |
| DockerManager.DockerfileTarget | CloudManager/managers/docker_manager.py:39-42 | An existing directory resolves to `Dockerfile` joined onto it. Any other path is used as given. |
| DockerManager.DockerfileTargetInDirectory | CloudManager/managers/docker_manager.py:39-40 | A Dockerfile saved into a directory lands at `<dir>/Dockerfile`, whose parent is that directory again. |
| DockerManager.CreateDockerfile | CloudManager/managers/docker_manager.py:31-48 | When the write goes through, the resolved target holds exactly the content, every other file is unchanged and the message names the target. When the operating system refuses the write, no file changes and its text is reported. Directories never change. |
| DockerManager.SaveThenBuild | CloudManager/managers/docker_manager.py:31-63 | A Dockerfile saved into a directory holds the content written, and building it runs the build command with that directory as the context. |

## Left out

- The GUI (`CloudManager/main.py`) is not part of this model. This includes its own checks that a field is not empty before a manager is called.
- `load_vm_config` (`CloudManager/managers/qemu_manager.py:73-90`) reads JSON from a file and is not part of this model.
- Running a process is not modelled. `subprocess.run` and `subprocess.Popen` are the `Shell` and `Launcher` parameters, so timing, blocking, concurrency and the detached VM process are outside the model.
- Which exception the operating system raises on a failed write, and a file left truncated by a write that fails partway, are not modelled. `CreateDockerfile` takes the failure as the `osError` parameter and leaves the files unchanged on failure.
- CreateDockerfile: requires that `osError` is given when the resolved target is the empty path or a directory, because the operating system always refuses those writes and the model does not compute that refusal itself.
- Windows paths are not modelled. `Paths` uses the POSIX rules with '/' as the only separator.
- The full shell grammar is not modelled. `ShellWords` reads blanks and double quotes only, so the argv lemmas assume arguments free of other shell-special characters, `{` included (brace expansion in shells such as bash). What the shell does with a term like `a;rm -rf x` is outside the model.
- StartVm: `iso_path=None` is modelled as the empty string. Both are false in Python, and the GUI always passes a string.
- StartVm: `cpu_cores` and `ram_mb` are strings, as the GUI passes them. An integer 0, which Python would also skip, is not modelled.
- Text.Strip: covers the whitespace characters of Python's `str.isspace` by code point. Text decoding of the captured streams is not modelled.
