/** The target resolver (`resolveTargetFromRequest`, src/server.ts:96-128):
    from the raw path and query of an inbound request, its `Upgrade` header
    and whether the inbound connection is encrypted, the absolute URL the
    client wants to reach, if there is one.  Building the path from the
    request (`new URL(req.url, ...)`, src/server.ts:98-101) is the URL
    parser's work and is not part of this model: the raw path is an input. */
module TargetResolver {
  import opened Wrappers
  import opened Text

  /** The four schemes a target may carry, written as the pattern
      `^(https?:\/\/|wss?:\/\/)` spells them out. */
  const SchemePrefixes: seq<string> := ["http://", "https://", "ws://", "wss://"]

  /** The test of src/server.ts:106: the pattern is case-insensitive, and
      its letters are all ASCII, so it is a prefix test on the lower-cased
      string. */
  predicate HasSchemePrefix(t: string) {
    exists i :: 0 <= i < |SchemePrefixes| && StartsWith(Lower(t), SchemePrefixes[i])
  }

  /** src/server.ts:104: one leading `/` is removed, and only one. */
  function StripLeadingSlash(rawPath: string): (r: string)
    ensures |rawPath| - 1 <= |r| <= |rawPath|
    ensures rawPath == r || rawPath == "/" + r
    ensures StartsWith(rawPath, "/") <==> rawPath == "/" + r
  {
    if StartsWith(rawPath, "/") then rawPath[1..] else rawPath
  }

  /** src/server.ts:118-119: the `Upgrade` header, absent read as empty,
      lower-cased, equals `websocket`. */
  predicate IsWebSocketUpgrade(upgrade: Option<string>) {
    Lower(upgrade.GetOr("")) == "websocket"
  }

  /** The scheme chosen for an upgrade whose path carries none
      (src/server.ts:121-122). */
  function UpgradeScheme(encrypted: bool): string {
    if encrypted then "wss://" else "ws://"
  }

  /** The second test (src/server.ts:111-113) never sees a string the first
      one (src/server.ts:106) let through: it is dead code. */
  lemma SecondTestIsSubsumed(t: string)
    requires StartsWith(t, "https://") || StartsWith(t, "http://")
    ensures HasSchemePrefix(t)
  {
    if StartsWith(t, "https://") {
      StartsWithLower(t, SchemePrefixes[1]);
    } else {
      StartsWithLower(t, SchemePrefixes[0]);
    }
  }

  /** A target made up for an upgrade always carries a scheme the first
      test accepts. */
  lemma UpgradeTargetHasScheme(encrypted: bool, t: string)
    ensures HasSchemePrefix(UpgradeScheme(encrypted) + t)
  {
    var i := if encrypted then 3 else 2;
    StartsWithLower(UpgradeScheme(encrypted) + t, SchemePrefixes[i]);
  }

  /** `resolveTargetFromRequest`, branch for branch. */
  function ResolveTarget(rawPath: string, upgrade: Option<string>, encrypted: bool): (r: Option<string>)
    // every target carries one of the four schemes, so it is never empty
    ensures r.Some? ==> HasSchemePrefix(r.value) && |r.value| > 0
    // a path that already names a scheme is returned as it stands, query included
    ensures HasSchemePrefix(StripLeadingSlash(rawPath)) ==> r == Some(StripLeadingSlash(rawPath))
    // otherwise a target exists exactly for a WebSocket upgrade with a non-empty path
    ensures !HasSchemePrefix(StripLeadingSlash(rawPath)) ==>
      (r.Some? <==> IsWebSocketUpgrade(upgrade) && |StripLeadingSlash(rawPath)| > 0)
    // and it is the path behind the scheme of the inbound connection
    ensures !HasSchemePrefix(StripLeadingSlash(rawPath)) && r.Some? ==>
      r.value == UpgradeScheme(encrypted) + StripLeadingSlash(rawPath)
  {
    var trimmed := StripLeadingSlash(rawPath);
    if HasSchemePrefix(trimmed) then
      Some(trimmed)
    else if StartsWith(trimmed, "https://") || StartsWith(trimmed, "http://") then
      SecondTestIsSubsumed(trimmed);
      assert false;
      Some(trimmed)
    else if IsWebSocketUpgrade(upgrade) && |trimmed| > 0 then
      UpgradeTargetHasScheme(encrypted, trimmed);
      Some(UpgradeScheme(encrypted) + trimmed)
    else
      None
  }

  /** A path `/` + scheme + rest, the scheme in any letter case, resolves
      to scheme + rest, character for character, whatever the upgrade
      header and the transport. */
  lemma FullUrlIsKept(scheme: string, rest: string, upgrade: Option<string>, encrypted: bool)
    requires Lower(scheme) in SchemePrefixes
    ensures ResolveTarget("/" + scheme + rest, upgrade, encrypted) == Some(scheme + rest)
  {
    var t := scheme + rest;
    assert "/" + scheme + rest == "/" + t;
    StartsWithAppend("/", t);
    LowerPrefix(t, |scheme|);
    assert t[..|scheme|] == scheme;
    var i :| 0 <= i < |SchemePrefixes| && SchemePrefixes[i] == Lower(scheme);
    assert StartsWith(Lower(t), SchemePrefixes[i]);
  }

  /** A WebSocket upgrade whose path is `/` + a host and path that names no
      scheme is sent to that host with the inbound connection's scheme. */
  lemma UpgradePathGetsScheme(rest: string, upgrade: Option<string>, encrypted: bool)
    requires |rest| > 0 && !HasSchemePrefix(rest)
    requires IsWebSocketUpgrade(upgrade)
    ensures ResolveTarget("/" + rest, upgrade, encrypted) == Some(UpgradeScheme(encrypted) + rest)
  {
    StartsWithAppend("/", rest);
  }

  /** No scheme prefix can begin with any letter but `h` or `w`. */
  lemma NoSchemeByFirstChar(t: string)
    requires |t| > 0 && LowerChar(t[0]) != 'h' && LowerChar(t[0]) != 'w'
    ensures !HasSchemePrefix(t)
  {
    forall i | 0 <= i < |SchemePrefixes|
      ensures !StartsWith(Lower(t), SchemePrefixes[i])
    {
      assert SchemePrefixes[i][0] in {'h', 'w'};
    }
  }
}
