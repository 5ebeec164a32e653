/**
  Classification of a workspace by the build configuration files at its root.
  The file system is the set of names present directly under the workspace
  root; no other property of the files matters.
*/
module DetectProject {
  /** The three kinds of project the deployment knows about. */
  datatype ProjectType = NextJs | Vite | Static

  const NextConfig: string := "next.config.js"
  const ViteConfigTs: string := "vite.config.ts"
  const ViteConfigJs: string := "vite.config.js"

  /** The marker file names; every other name is irrelevant to the classification. */
  const MarkerNames: set<string> := {NextConfig, ViteConfigTs, ViteConfigJs}

  /** The string value of each member of the `ProjectType` union. */
  function Name(t: ProjectType): (n: string)
    ensures n == "next.js" || n == "vite" || n == "static"
  {
    match t
    case NextJs => "next.js"
    case Vite => "vite"
    case Static => "static"
  }

  /** Distinct project types have distinct names. */
  lemma NameInjective(a: ProjectType, b: ProjectType)
    requires Name(a) == Name(b)
    ensures a == b
  {
  }

  /**
    `detectProjectType`: Next.js when `next.config.js` is present; otherwise
    Vite when either Vite configuration is present; otherwise a static site.
  */
  function DetectProjectType(files: set<string>): (t: ProjectType)
    ensures t == NextJs <==> NextConfig in files
    ensures t == Vite <==> NextConfig !in files && (ViteConfigTs in files || ViteConfigJs in files)
    ensures t == Static <==> NextConfig !in files && ViteConfigTs !in files && ViteConfigJs !in files
  {
    if NextConfig in files then NextJs
    else if ViteConfigTs in files || ViteConfigJs in files then Vite
    else Static
  }

  // ---------------------------------------------------------------------------
  // An independent reference: the checks as a table read in priority order

  /** The existence checks in the order they are made, with the type each one selects. */
  const CheckOrder: seq<(string, ProjectType)> :=
    [(NextConfig, NextJs), (ViteConfigTs, Vite), (ViteConfigJs, Vite)]

  /** The type selected by the first check in `checks` whose file is present, `Static` if none is. */
  function FirstPresent(files: set<string>, checks: seq<(string, ProjectType)>): (t: ProjectType)
    ensures t != Static ==> exists k :: 0 <= k < |checks| && checks[k].0 in files && checks[k].1 == t
    ensures (forall k :: 0 <= k < |checks| ==> checks[k].0 !in files) ==> t == Static
  {
    if checks == [] then Static
    else if checks[0].0 in files then checks[0].1
    else FirstPresent(files, checks[1..])
  }

  /** The classifier is the table read in priority order. */
  lemma DetectIsFirstPresent(files: set<string>)
    ensures DetectProjectType(files) == FirstPresent(files, CheckOrder)
  {
    var vite, viteJs := CheckOrder[1..], CheckOrder[2..];
    assert vite[0] == (ViteConfigTs, Vite) && vite[1..] == viteJs;
    assert viteJs[0] == (ViteConfigJs, Vite) && viteJs[1..] == [];
    assert FirstPresent(files, viteJs) == if ViteConfigJs in files then Vite else Static;
    assert FirstPresent(files, vite) == if ViteConfigTs in files then Vite else FirstPresent(files, viteJs);
    assert FirstPresent(files, CheckOrder) == if NextConfig in files then NextJs else FirstPresent(files, vite);
  }

  // ---------------------------------------------------------------------------
  // Priority and locality

  /** `next.config.js` wins over any Vite configuration. */
  lemma NextConfigWins(files: set<string>)
    ensures DetectProjectType(files + {NextConfig}) == NextJs
    ensures Name(DetectProjectType(files + {NextConfig})) == "next.js"
  {
  }

  /** The two Vite configuration names are interchangeable. */
  lemma ViteConfigsInterchangeable(files: set<string>)
    requires NextConfig !in files
    ensures DetectProjectType(files + {ViteConfigTs}) == DetectProjectType(files + {ViteConfigJs}) == Vite
  {
  }

  /** Only the marker names decide: sets that agree on them are classified alike. */
  lemma DependsOnlyOnMarkers(a: set<string>, b: set<string>)
    requires a * MarkerNames == b * MarkerNames
    ensures DetectProjectType(a) == DetectProjectType(b)
  {
    assert NextConfig in a <==> NextConfig in a * MarkerNames;
    assert ViteConfigTs in a <==> ViteConfigTs in a * MarkerNames;
    assert ViteConfigJs in a <==> ViteConfigJs in a * MarkerNames;
  }

  /** Adding or removing a file that is not a marker leaves the classification unchanged. */
  lemma OtherFilesIrrelevant(files: set<string>, f: string)
    requires f !in MarkerNames
    ensures DetectProjectType(files + {f}) == DetectProjectType(files)
    ensures DetectProjectType(files - {f}) == DetectProjectType(files)
  {
  }

  /** A static site is exactly a workspace holding none of the marker files. */
  lemma StaticIffNoMarker(files: set<string>)
    ensures DetectProjectType(files) == Static <==> files * MarkerNames == {}
  {
    if files * MarkerNames == {} {
      assert NextConfig !in files * MarkerNames;
      assert ViteConfigTs !in files * MarkerNames;
      assert ViteConfigJs !in files * MarkerNames;
    } else {
      var m :| m in files * MarkerNames;
    }
  }

  /** An empty workspace is a static site. */
  lemma EmptyWorkspaceIsStatic()
    ensures Name(DetectProjectType({})) == "static"
  {
  }
}
