/** The bundle chunk classifier (`manualChunks` in vite.config.ts): a module
    id under node_modules goes to a vendor chunk chosen by substrings of the
    id; any other id gets no chunk. */
module Chunks {
  import opened Common
  import opened Text

  const NodeModules := "node_modules"

  /** The classifier as written: 'react' is tested before 'lucide'. */
  function ManualChunksAsWritten(id: string): (r: Option<string>)
    ensures r.None? <==> !Contains(id, NodeModules)
    ensures r == Some("vendor-react") <==> Contains(id, NodeModules) && Contains(id, "react")
    ensures r == Some("vendor-ui") <==>
              Contains(id, NodeModules) && !Contains(id, "react") && Contains(id, "lucide")
    ensures r == Some("vendor") <==>
              Contains(id, NodeModules) && !Contains(id, "react") && !Contains(id, "lucide")
  {
    if Contains(id, NodeModules) then
      if Contains(id, "react") then Some("vendor-react")
      else if Contains(id, "lucide") then Some("vendor-ui")
      else Some("vendor")
    else None
  }

  /** Every module of the `lucide-react` package also contains "react", so as
      written it lands in 'vendor-react' and 'vendor-ui' is never produced
      for it. */
  lemma LucideReactGoesToVendorReact(prefix: string, rest: string)
    ensures ManualChunksAsWritten(prefix + "node_modules/lucide-react/" + rest) == Some("vendor-react")
  {
    var id := prefix + "node_modules/lucide-react/" + rest;
    assert id == prefix + NodeModules + ("/lucide-react/" + rest);
    ContainsMiddle(prefix, NodeModules, "/lucide-react/" + rest);
    assert id == (prefix + "node_modules/lucide-") + "react" + ("/" + rest);
    ContainsMiddle(prefix + "node_modules/lucide-", "react", "/" + rest);
  }

  /** The classifier with 'lucide' tested first, so the icon package gets
      its own chunk; every other id is classified as before. */
  function ManualChunks(id: string): (r: Option<string>)
    ensures r.None? <==> !Contains(id, NodeModules)
    ensures r == Some("vendor-ui") <==> Contains(id, NodeModules) && Contains(id, "lucide")
    ensures !Contains(id, "lucide") ==> r == ManualChunksAsWritten(id)
  {
    if Contains(id, NodeModules) then
      if Contains(id, "lucide") then Some("vendor-ui")
      else if Contains(id, "react") then Some("vendor-react")
      else Some("vendor")
    else None
  }

  /** With the corrected order the `lucide-react` package goes to 'vendor-ui'. */
  lemma LucideReactGoesToVendorUi(prefix: string, rest: string)
    ensures ManualChunks(prefix + "node_modules/lucide-react/" + rest) == Some("vendor-ui")
  {
    var id := prefix + "node_modules/lucide-react/" + rest;
    assert id == prefix + NodeModules + ("/lucide-react/" + rest);
    ContainsMiddle(prefix, NodeModules, "/lucide-react/" + rest);
    assert id == (prefix + "node_modules/") + "lucide" + ("-react/" + rest);
    ContainsMiddle(prefix + "node_modules/", "lucide", "-react/" + rest);
  }

  /** Whichever order, the result is no chunk or one of the three vendor
      chunks. */
  lemma ChunkNames(id: string)
    ensures ManualChunksAsWritten(id) in {None, Some("vendor-react"), Some("vendor-ui"), Some("vendor")}
    ensures ManualChunks(id) in {None, Some("vendor-react"), Some("vendor-ui"), Some("vendor")}
  {
  }
}
