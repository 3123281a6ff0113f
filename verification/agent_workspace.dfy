/** The agent workspace helpers: showing a path with the home directory
    abbreviated to `~`, expanding a leading `~` in a configured workspace,
    locating the workspace's AGENTS file, and creating that file once. */
module AgentWorkspace {
  import opened PathSegments

  const AgentsFilename: string := "AGENTS.md"

  /** The heading every freshly created AGENTS file starts with. */
  const AgentsHeading: string := "# AGENTS.md"

  /** The contents written to a new AGENTS file (only its heading is modelled). */
  const AgentsTemplate: string := AgentsHeading + "\n"

  predicate StartsWith(s: string, prefix: string) {
    prefix <= s
  }

  predicate EndsWith(s: string, suffix: string) {
    |suffix| <= |s| && s[|s| - |suffix|..] == suffix
  }

  /** `needle` occurs somewhere in `s`. */
  predicate Contains(s: string, needle: string)
    decreases |s|
  {
    StartsWith(s, needle) || (|s| > 0 && Contains(s[1..], needle))
  }

  /** `path` for display: the home directory itself becomes `~`, anything
      below it `~/...`, and every other path is shown as it is. */
  function DisplayPath(path: string, home: string): (s: string)
    ensures path == home ==> s == "~"
    ensures path != home && StartsWith(path, home + "/") ==> StartsWith(s, "~/")
    ensures path != home && !StartsWith(path, home + "/") ==> s == path
  {
    if path == home then "~"
    else if StartsWith(path, home + "/") then "~" + path[|home|..]
    else path
  }

  /** The workspace a configured path names: a leading `~` (alone or before
      a `/`) stands for the home directory; other paths are taken as written. */
  function ResolveWorkspace(input: string, home: string): (p: string)
    ensures input == "~" ==> p == home
    ensures StartsWith(input, "~/") ==> p == home + input[1..]
    ensures !StartsWith(input, "~") ==> p == input
  {
    if input == "~" then home
    else if StartsWith(input, "~/") then home + input[1..]
    else input
  }

  /** The component after the last '/', a trailing '/' aside. */
  function LastPathComponent(path: string): string {
    var segs := Split(path);
    if |segs| >= 2 && segs[|segs| - 1] == "" then segs[|segs| - 2] else segs[|segs| - 1]
  }

  /** Where the workspace keeps its AGENTS file. */
  function AgentsPath(workspace: string): (p: string)
    ensures StartsWith(p, workspace)
    ensures EndsWith(p, "/" + AgentsFilename)
    ensures var dir := p[..|p| - |AgentsFilename| - 1];
      dir == workspace || dir + "/" == workspace
  {
    if |workspace| > 0 && workspace[|workspace| - 1] == '/' then
      assert workspace[..|workspace| - 1] + "/" == workspace;
      workspace[..|workspace| - 1] + "/" + AgentsFilename
    else
      workspace + "/" + AgentsFilename
  }

  /** The directories and text files on disk, by path. */
  datatype Disk = Disk(directories: set<string>, files: map<string, string>)

  datatype Bootstrapped = Bootstrapped(disk: Disk, agentsPath: string)

  /** Makes sure the workspace directory and its AGENTS file exist, writing
      the template only when the file is missing, and returns the file's path. */
  function Bootstrap(d: Disk, workspace: string): (r: Bootstrapped)
    ensures r.agentsPath == AgentsPath(workspace)
    ensures r.disk.directories == d.directories + {workspace}
    ensures r.agentsPath in r.disk.files
    ensures r.agentsPath in d.files ==> r.disk.files == d.files
    ensures r.agentsPath !in d.files ==> r.disk.files[r.agentsPath] == AgentsTemplate
    ensures forall p :: p != r.agentsPath ==>
      (p in r.disk.files <==> p in d.files) && (p in d.files ==> r.disk.files[p] == d.files[p])
  {
    var path := AgentsPath(workspace);
    var dirs := d.directories + {workspace};
    if path in d.files then Bootstrapped(Disk(dirs, d.files), path)
    else Bootstrapped(Disk(dirs, d.files[path := AgentsTemplate]), path)
  }

  /** Displaying then resolving gives back any path that does not itself
      begin with `~`. */
  lemma ResolveDisplayPath(path: string, home: string)
    requires !StartsWith(path, "~")
    ensures ResolveWorkspace(DisplayPath(path, home), home) == path
  {
  }

  /** Resolving then displaying gives back a `~` or `~/...` path. */
  lemma DisplayResolvedPath(input: string, home: string)
    requires input == "~" || StartsWith(input, "~/")
    ensures DisplayPath(ResolveWorkspace(input, home), home) == input
  {
  }

  /** Expanding `~/<rest>` gives a path that ends in `/<rest>`. */
  lemma ResolvedTildeEndsWithRest(rest: string, home: string)
    ensures EndsWith(ResolveWorkspace("~/" + rest, home), "/" + rest)
  {
  }

  /** The AGENTS file's last path component is the AGENTS file name. */
  lemma {:induction false} AgentsPathNamesAgentsFile(workspace: string)
    ensures LastPathComponent(AgentsPath(workspace)) == AgentsFilename
  {
    var p := AgentsPath(workspace);
    var x := if |workspace| > 0 && workspace[|workspace| - 1] == '/'
             then workspace[..|workspace| - 1] else workspace;
    assert p == x + "/" + AgentsFilename;
    SplitLast(x, AgentsFilename);
  }

  /** A bootstrap that finds no AGENTS file creates one with the heading. */
  lemma BootstrapCreatesHeading(d: Disk, workspace: string)
    requires AgentsPath(workspace) !in d.files
    ensures Contains(Bootstrap(d, workspace).disk.files[AgentsPath(workspace)], AgentsHeading)
  {
  }

  /** Bootstrapping twice is bootstrapping once: same disk, same path. */
  lemma BootstrapIdempotent(d: Disk, workspace: string)
    ensures Bootstrap(Bootstrap(d, workspace).disk, workspace) == Bootstrap(d, workspace)
  {
  }
}
