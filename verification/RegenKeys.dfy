/** Blob keys: manifests, their bill-of-materials sidecars, and what directory discovery lists. */
module RegenKeys {
  import opened Text

  predicate EndsWith(s: string, t: string) {
    |t| <= |s| && s[|s| - |t|..] == t
  }

  function SidecarKey(key: string): string {
    if EndsWith(key, ".json") && !EndsWith(key, "-bom.json") then key[..|key| - 5] + "-bom.json"
    else key + "-bom.json"
  }

  lemma LastOf(s: string, t: string)
    requires EndsWith(s, t) && t != ""
    ensures s[|s| - 1] == t[|t| - 1]
  {
    assert s[|s| - 1] == s[|s| - |t|..][|t| - 1];
  }

  predicate IsSidecarKey(key: string) { EndsWith(key, "-bom.json") }

  function StripSlashes(s: string): string {
    if s != "" && s[|s| - 1] == '/' then StripSlashes(s[..|s| - 1]) else s
  }

  predicate IsManifestKey(key: string) {
    EndsWith(key, ".json") && !IsSidecarKey(key) && !EndsWith(StripSlashes(key), ".gitkeep")
  }

  /** The third test of the manifest filter never decides. */
  lemma ManifestKeyIs(key: string)
    ensures IsManifestKey(key) <==> EndsWith(key, ".json") && !EndsWith(key, "-bom.json")
  {
    if EndsWith(key, ".json") {
      LastOf(key, ".json");
      if EndsWith(key, ".gitkeep") {
        LastOf(key, ".gitkeep");
      }
    }
  }

  /** A manifest's sidecar is a sidecar key, is no manifest key, and belongs to no other manifest. */
  lemma SidecarOfManifest(key: string)
    requires IsManifestKey(key)
    ensures SidecarKey(key) == key[..|key| - 5] + "-bom.json"
    ensures IsSidecarKey(SidecarKey(key)) && !IsManifestKey(SidecarKey(key))
  {
    var s := SidecarKey(key);
    assert s[|s| - 9..] == "-bom.json";
  }

  /** For any other key the ending is appended. */
  lemma SidecarOfOther(key: string)
    requires !IsManifestKey(key)
    ensures SidecarKey(key) == key + "-bom.json"
  {
    ManifestKeyIs(key);
  }

  lemma SidecarsDiffer(a: string, b: string)
    requires IsManifestKey(a) && IsManifestKey(b) && SidecarKey(a) == SidecarKey(b)
    ensures a == b
  {
    SidecarOfManifest(a);
    SidecarOfManifest(b);
    var s := SidecarKey(a);
    assert a[..|a| - 5] == s[..|s| - 9] == b[..|b| - 5];
    assert a == a[..|a| - 5] + a[|a| - 5..] && b == b[..|b| - 5] + b[|b| - 5..];
  }

  /* ---------- Directory discovery ---------- */

  /** `key.rsplit("/", 1)[-1]` */
  function BaseName(key: string): string {
    if '/' !in key then key else BaseName(key[1..])
  }

  /** An ending without a slash is an ending of the base name. */
  lemma {:induction false} BaseNameEnds(key: string, t: string)
    requires EndsWith(key, t) && '/' !in t
    ensures EndsWith(BaseName(key), t)
  {
    assert key[0..] == key;
    if '/' in key {
      assert key[1..][|key| - 1 - |t|..] == key[|key| - |t|..];
      BaseNameEnds(key[1..], t);
    }
  }

  lemma {:induction false} BaseNameOf(dir: string, base: string)
    requires '/' !in base
    ensures BaseName(dir + "/" + base) == base
  {
    var key := dir + "/" + base;
    assert key[|dir|] == '/';
    if dir == "" {
      assert key[1..] == base;
    } else {
      assert key[1..] == dir[1..] + "/" + base;
      BaseNameOf(dir[1..], base);
    }
  }

  lemma LowerEnds(s: string, t: string)
    requires EndsWith(s, t)
    ensures EndsWith(Lower(s), Lower(t))
  {
    var n := |s| - |t|;
    forall i | 0 <= i < |t| ensures Lower(s)[n..][i] == Lower(t)[i] {
      assert s[n + i] == s[n..][i];
    }
    assert Lower(s)[n..] == Lower(t);
  }

  predicate LooksLikeBom(key: string) {
    var base := Lower(BaseName(key));
    base == "bom.json" || EndsWith(base, "-bom.json") || ("bom_" <= base && EndsWith(base, ".json"))
  }

  /** What `_discover_by_directory_structure("okh")` keeps of an object listing. */
  predicate Discovered(key: string) { "okh/" <= key && !LooksLikeBom(key) }

  /** Directory discovery shows no sidecar. */
  lemma SidecarsHidden(key: string)
    requires IsSidecarKey(key)
    ensures !Discovered(key)
  {
    BaseNameEnds(key, "-bom.json");
    LowerEnds(BaseName(key), "-bom.json");
    assert Lower("-bom.json") == "-bom.json";
  }

  /** By its last component: not `bom.json`, nothing that ends in `-bom.json`, and no JSON file that begins
      with `bom_`, all in any case. */
  lemma DiscoveredIs(dir: string, base: string)
    requires '/' !in base
    ensures var low := Lower(base);
            Discovered(dir + "/" + base) <==>
            "okh/" <= dir + "/" + base && low != "bom.json" &&
            !(|low| >= 9 && low[|low| - 9..] == "-bom.json") &&
            !(|low| >= 5 && low[..4] == "bom_" && low[|low| - 5..] == ".json")
  {
    BaseNameOf(dir, base);
  }
}
