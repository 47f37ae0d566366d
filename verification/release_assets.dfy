/**
 * Choosing the template archive among the assets of the latest release
 * (the asset-selection block of `download_template_from_github`).
 */
module ReleaseAssets {
  import opened Wrappers
  import opened Text
  import opened Agents

  datatype Asset = Asset(name: string, size: nat, downloadUrl: string)

  /** The parts of the latest-release document the tool reads; absent `assets` reads as empty. */
  datatype Release = Release(tagName: string, assets: seq<Asset>)

  /** No asset matched: the expected name pattern and the names that were on offer. */
  datatype SelectionError = NoMatchingAsset(pattern: string, available: seq<string>)

  /** `spec-kit-template-{ai}-{script}` */
  function AssetPattern(agent: Agent, script: ScriptType): string {
    "spec-kit-template-" + AgentKey(agent) + "-" + ScriptKey(script)
  }

  predicate Matches(a: Asset, pattern: string) {
    Contains(a.name, pattern) && EndsWith(a.name, ".zip")
  }

  /** The list comprehension `matching_assets`: the matching assets, in release order. */
  function Matching(assets: seq<Asset>, pattern: string): (r: seq<Asset>)
    ensures |r| <= |assets|
    ensures forall x :: x in r ==> x in assets && Matches(x, pattern)
    ensures forall i :: 0 <= i < |assets| && Matches(assets[i], pattern) ==> assets[i] in r
  {
    if assets == [] then []
    else if Matches(assets[0], pattern) then [assets[0]] + Matching(assets[1..], pattern)
    else Matching(assets[1..], pattern)
  }

  /** The head of the matching list is the first matching asset in release order. */
  lemma {:induction false} MatchingHead(assets: seq<Asset>, pattern: string)
    requires Matching(assets, pattern) != []
    ensures exists i :: 0 <= i < |assets| && assets[i] == Matching(assets, pattern)[0] &&
                        Matches(assets[i], pattern) && forall j :: 0 <= j < i ==> !Matches(assets[j], pattern)
  {
    if !Matches(assets[0], pattern) {
      MatchingHead(assets[1..], pattern);
      var i :| 0 <= i < |assets[1..]| && assets[1..][i] == Matching(assets[1..], pattern)[0] &&
               Matches(assets[1..][i], pattern) && forall j :: 0 <= j < i ==> !Matches(assets[1..][j], pattern);
      assert assets[i + 1] == assets[1..][i];
      forall j | 0 <= j < i + 1
        ensures !Matches(assets[j], pattern)
      {
        if j > 0 {
          assert assets[j] == assets[1..][j - 1];
        }
      }
    } else {
      assert assets[0] == Matching(assets, pattern)[0];
    }
  }

  function AssetNames(assets: seq<Asset>): (r: seq<string>)
    ensures |r| == |assets| && forall i :: 0 <= i < |assets| ==> r[i] == assets[i].name
  {
    if assets == [] then [] else [assets[0].name] + AssetNames(assets[1..])
  }

  /**
   * The chosen asset is the first, in release order, whose name contains the
   * pattern and ends in `.zip`; when none does, the error lists every asset name.
   */
  function SelectAsset(release: Release, agent: Agent, script: ScriptType): (r: Result<Asset, SelectionError>)
    ensures r.Ok? <==> exists i :: 0 <= i < |release.assets| && Matches(release.assets[i], AssetPattern(agent, script))
    ensures r.Ok? ==> exists i :: 0 <= i < |release.assets| && release.assets[i] == r.value &&
                        Matches(r.value, AssetPattern(agent, script)) &&
                        forall j :: 0 <= j < i ==> !Matches(release.assets[j], AssetPattern(agent, script))
    ensures r.Err? ==> r.error == NoMatchingAsset(AssetPattern(agent, script), AssetNames(release.assets))
  {
    var pattern := AssetPattern(agent, script);
    var matching := Matching(release.assets, pattern);
    if matching != [] then
      MatchingHead(release.assets, pattern);
      Ok(matching[0])
    else
      Err(NoMatchingAsset(pattern, AssetNames(release.assets)))
  }

  /** Of a POSIX and a PowerShell archive for the same assistant, the POSIX request picks the first. */
  lemma SelectionExample()
    ensures var sh := Asset("spec-kit-template-claude-sh-v0.1.zip", 100, "u1");
            var ps := Asset("spec-kit-template-claude-ps-v0.1.zip", 100, "u2");
            SelectAsset(Release("v0.1", [sh, ps]), Claude, Sh) == Ok(sh)
  {
    var sh := Asset("spec-kit-template-claude-sh-v0.1.zip", 100, "u1");
    var pattern := AssetPattern(Claude, Sh);
    assert pattern == "spec-kit-template-claude-sh";
    assert OccursAt(sh.name, pattern, 0);
    assert sh.name[|sh.name| - 4..] == ".zip";
  }
}
