/** From a published snapshot to its download: the URL the downloader builds
    (internal/snapshot/downloader.go) and the path lookup of the server
    (internal/snapshot/server.go). */
module Serving {
  import opened Wrappers
  import opened Text
  import opened Snapshot
  import Publish

  const ARCHIVE := "snapshot.tar.zst"
  const LATEST := "latest"

  // The networks the server's mux routes to its snapshot handler.
  const NETWORKS := ["mainnet", "sepolia", "hoodi", "holesky"]

  // Go keys this by lower-case name; each name is its own slug.
  const CLIENTS := {"geth", "nethermind", "besu", "reth", "erigon", "lighthouse", "teku", "prysm", "nimbus", "lodestar"}

  /** unicode.ToLower where the result is an ASCII letter; no other letter can make a slug. */
  function Lower(c: char): char {
    if 'A' <= c <= 'Z' then 'a' + (c - 'A')
    else if c == '\U{212A}' then 'k'
    else if c == '\U{0130}' then 'i'
    else c
  }

  function ToLower(s: string): string {
    seq(|s|, i requires 0 <= i < |s| => Lower(s[i]))
  }

  function ClientSlug(client: string): Option<string> {
    if ToLower(client) in CLIENTS then Some(ToLower(client)) else None
  }

  /** One of the ten names, in letters of either case; the Kelvin sign and the dotted I count too. */
  predicate Spells(client: string, slug: string) {
    && slug in {"geth", "nethermind", "besu", "reth", "erigon", "lighthouse", "teku", "prysm", "nimbus", "lodestar"}
    && |client| == |slug|
    && forall i :: 0 <= i < |slug| ==>
         || client[i] == slug[i] || client[i] as int + 32 == slug[i] as int
         || (slug[i] == 'k' && client[i] == '\U{212A}') || (slug[i] == 'i' && client[i] == '\U{0130}')
  }

  /** A client's slug is its own name in lower-case letters. */
  lemma SlugExactly(client: string, slug: string)
    ensures ClientSlug(client) == Some(slug) <==> Spells(client, slug)
  {
    var lower := ToLower(client);
    if slug in CLIENTS && |client| == |slug| {
      SlugLetters(slug);
      forall i | 0 <= i < |slug|
        ensures lower[i] == slug[i] <==>
                  || client[i] == slug[i] || client[i] as int + 32 == slug[i] as int
                  || (slug[i] == 'k' && client[i] == '\U{212A}') || (slug[i] == 'i' && client[i] == '\U{0130}')
      {
        assert 'a' <= slug[i] <= 'z';
      }
      assert lower == slug <==> forall i :: 0 <= i < |slug| ==> lower[i] == slug[i];
    }
  }

  lemma SlugLetters(slug: string)
    requires slug in CLIENTS
    ensures forall i :: 0 <= i < |slug| ==> 'a' <= slug[i] <= 'z'
  {
  }

  /** strings.SplitN. */
  function SplitN(s: string, sep: char, n: nat): (parts: seq<string>)
    requires n > 0
    ensures 1 <= |parts| <= n
    decreases |s|
  {
    if s == "" || n == 1 then [s]
    else if s[0] == sep then [""] + SplitN(s[1..], sep, n - 1)
    else
      var rest := SplitN(s[1..], sep, n);
      [[s[0]] + rest[0]] + rest[1..]
  }

  datatype Request =
    | LatestOf(network: string, client: string)
    | ArchiveOf(network: string, client: string, block: string)
    | NotFound

  function TrimPrefix(s: string, c: char): string {
    if s != "" && s[0] == c then s[1..] else s
  }

  /** handleSnapshot. */
  function ParsePath(path: string): Request {
    var parts := SplitN(TrimPrefix(path, '/'), '/', 4);
    if |parts| == 3 then (if parts[2] == LATEST then LatestOf(parts[0], parts[1]) else NotFound)
    else if |parts| == 4 then (if parts[3] == ARCHIVE then ArchiveOf(parts[0], parts[1], parts[2]) else NotFound)
    else NotFound
  }

  /** What follows the base URL in the two requests of the downloader. */
  function LatestPath(network: string, slug: string): string {
    "/" + network + "/" + slug + "/" + LATEST
  }

  function ArchivePath(network: string, slug: string, block: string): string {
    "/" + network + "/" + slug + "/" + block + "/" + ARCHIVE
  }

  predicate Slashless(s: string) {
    '/' !in s
  }

  lemma {:induction false} SplitFirst(a: string, rest: string, n: nat)
    requires Slashless(a) && n > 1
    ensures SplitN(a + "/" + rest, '/', n) == [a] + SplitN(rest, '/', n - 1)
  {
    var s := a + "/" + rest;
    if a == "" {
      assert s[0] == '/' && s[1..] == rest;
    } else {
      assert s[0] == a[0] && s[1..] == a[1..] + "/" + rest;
      SplitFirst(a[1..], rest, n);
      assert [a[0]] + a[1..] == a;
    }
  }

  lemma {:induction false} SplitWhole(s: string, n: nat)
    requires n > 0 && Slashless(s)
    ensures SplitN(s, '/', n) == [s]
    decreases |s|
  {
    if s != "" && n > 1 {
      SplitWhole(s[1..], n);
      assert [s[0]] + s[1..] == s;
    }
  }

  /** Every part but the last of n is free of slashes. */
  lemma {:induction false} PartsSlashless(s: string, n: nat)
    requires n > 0
    ensures forall i :: 0 <= i < |SplitN(s, '/', n)| && i < n - 1 ==> Slashless(SplitN(s, '/', n)[i])
    decreases |s|
  {
    if s != "" && n > 1 {
      if s[0] == '/' {
        PartsSlashless(s[1..], n - 1);
      } else {
        PartsSlashless(s[1..], n);
      }
    }
  }

  /** The server reads the downloader's archive path as that very archive exactly when no part
      contains a slash. */
  lemma ArchiveRoundTrip(network: string, slug: string, block: string)
    ensures ParsePath(ArchivePath(network, slug, block)) == ArchiveOf(network, slug, block)
       <==> Slashless(network) && Slashless(slug) && Slashless(block)
  {
    var path := ArchivePath(network, slug, block);
    var rest := network + "/" + (slug + "/" + (block + "/" + ARCHIVE));
    assert TrimPrefix(path, '/') == rest;
    if Slashless(network) && Slashless(slug) && Slashless(block) {
      ThreeParts(network, slug, block, ARCHIVE);
    } else {
      PartsSlashless(rest, 4);
    }
  }

  lemma ThreeParts(a: string, b: string, c: string, rest: string)
    requires Slashless(a) && Slashless(b) && Slashless(c) && Slashless(rest)
    ensures SplitN(a + "/" + (b + "/" + (c + "/" + rest)), '/', 4) == [a, b, c, rest]
  {
    SplitFirst(a, b + "/" + (c + "/" + rest), 4);
    SplitFirst(b, c + "/" + rest, 3);
    SplitFirst(c, rest, 2);
    SplitWhole(rest, 1);
  }

  /** And likewise for the path of `latest`. */
  lemma LatestRoundTrip(network: string, slug: string)
    ensures ParsePath(LatestPath(network, slug)) == LatestOf(network, slug) <==> Slashless(network) && Slashless(slug)
  {
    var rest := network + "/" + (slug + "/" + LATEST);
    assert TrimPrefix(LatestPath(network, slug), '/') == rest;
    if Slashless(network) && Slashless(slug) {
      TwoParts(network, slug, LATEST);
    } else {
      PartsSlashless(rest, 4);
    }
  }

  lemma TwoParts(a: string, b: string, rest: string)
    requires Slashless(a) && Slashless(b) && Slashless(rest)
    ensures SplitN(a + "/" + (b + "/" + rest), '/', 4) == [a, b, rest]
  {
    SplitFirst(a, b + "/" + rest, 4);
    SplitFirst(b, rest, 3);
    SplitWhole(rest, 2);
  }

  /** A split in several parts puts the first before the rest. */
  lemma {:induction false} SplitHead(s: string, n: nat) returns (rest: string)
    requires n > 1 && |SplitN(s, '/', n)| > 1
    ensures s == SplitN(s, '/', n)[0] + "/" + rest && SplitN(s, '/', n)[1..] == SplitN(rest, '/', n - 1)
  {
    if s[0] == '/' {
      rest := s[1..];
    } else {
      rest := SplitHead(s[1..], n);
    }
  }

  lemma {:induction false} SplitOne(s: string, n: nat)
    requires n > 0 && |SplitN(s, '/', n)| == 1
    ensures SplitN(s, '/', n) == [s]
    decreases |s|
  {
    if s != "" && n > 1 && s[0] != '/' {
      SplitOne(s[1..], n);
      assert [s[0]] + s[1..] == s;
    }
  }

  lemma ReadThree(s: string)
    requires |SplitN(s, '/', 4)| == 3
    ensures var parts := SplitN(s, '/', 4); s == parts[0] + "/" + (parts[1] + "/" + parts[2])
  {
    var s1 := SplitHead(s, 4);
    var s2 := SplitHead(s1, 3);
    SplitOne(s2, 2);
  }

  lemma ReadFour(s: string)
    requires |SplitN(s, '/', 4)| == 4
    ensures var parts := SplitN(s, '/', 4); s == parts[0] + "/" + (parts[1] + "/" + (parts[2] + "/" + parts[3]))
  {
    var s1 := SplitHead(s, 4);
    var s2 := SplitHead(s1, 3);
    var s3 := SplitHead(s2, 2);
    SplitOne(s3, 1);
  }

  /** Which paths ask for an archive, and for which; a slash at the front does not matter. */
  lemma ArchivePathsExactly(path: string, network: string, slug: string, block: string)
    ensures ParsePath(path) == ArchiveOf(network, slug, block)
       <==> && Slashless(network) && Slashless(slug) && Slashless(block)
            && TrimPrefix(path, '/') == network + "/" + (slug + "/" + (block + "/" + "snapshot.tar.zst"))
  {
    var s := TrimPrefix(path, '/');
    PartsSlashless(s, 4);
    if |SplitN(s, '/', 4)| == 4 {
      ReadFour(s);
    }
    if Slashless(network) && Slashless(slug) && Slashless(block) {
      ThreeParts(network, slug, block, ARCHIVE);
    }
  }

  /** And which ask for `latest`. */
  lemma LatestPathsExactly(path: string, network: string, slug: string)
    ensures ParsePath(path) == LatestOf(network, slug)
       <==> Slashless(network) && Slashless(slug) && TrimPrefix(path, '/') == network + "/" + (slug + "/" + "latest")
  {
    var s := TrimPrefix(path, '/');
    PartsSlashless(s, 4);
    if |SplitN(s, '/', 4)| == 3 {
      ReadThree(s);
    }
    if Slashless(network) && Slashless(slug) {
      TwoParts(network, slug, LATEST);
    }
  }

  /** The output directories under the server's root, by network and client. */
  type Root = map<(string, string), Folder>

  datatype Response = Missing404 | Text(body: string) | Stream(archive: Archive)

  predicate HasPrefix(s: string, prefix: string) {
    prefix <= s
  }

  predicate Routed(path: string) {
    exists n :: n in NETWORKS && HasPrefix(path, "/" + n + "/")
  }

  /** The server: mux, handleSnapshot, handleLatest and handleArchive. */
  function Get(root: Root, path: string): Response {
    if !Routed(path) then Missing404
    else
      match ParsePath(path)
      case LatestOf(n, c) =>
        if (n, c) in root && root[(n, c)].latest.Some? then Text(TrimSpace(root[(n, c)].latest.value)) else Missing404
      case ArchiveOf(n, c, b) =>
        if (n, c) in root && b in root[(n, c)].dirs && root[(n, c)].dirs[b] != Missing
        then Stream(root[(n, c)].dirs[b])
        else Missing404
      case NotFound => Missing404
  }

  datatype Info = Info(network: string, client: string, block: string, path: string)

  /** LatestBlock against this server. */
  function LatestBlock(root: Root, network: string, slug: string): Option<string> {
    match Get(root, LatestPath(network, slug))
    case Text(body) => if TrimSpace(body) == "" then None else Some(TrimSpace(body))
    case _ => None
  }

  function Discover(root: Root, network: string, client: string): Option<Info> {
    match ClientSlug(client)
    case None => None
    case Some(slug) =>
      match LatestBlock(root, network, slug)
      case None => None
      case Some(block) => Some(Info(network, slug, block, ArchivePath(network, slug, block)))
  }

  lemma NumberIsPlain(s: string)
    requires AllDigits(s)
    ensures Slashless(s) && TrimSpace(s) == s
  {
    assert IsDigit(s[0]) && IsDigit(s[|s| - 1]);
  }

  lemma SlugSlashless(slug: string)
    requires slug in CLIENTS
    ensures Slashless(slug)
  {
  }

  lemma RoutedPath(network: string, tail: string)
    requires network in NETWORKS
    ensures Slashless(network) && Routed("/" + network + "/" + tail)
  {
    assert HasPrefix("/" + network + "/" + tail, "/" + network + "/");
  }

  /** Whatever is published is found: for a routed network and a supported client whose
      directory is servable and has a `latest`, Discover names that block, and the URL it
      builds streams the complete archive. */
  lemma DiscoverServes(root: Root, network: string, client: string)
    requires network in NETWORKS && ClientSlug(client).Some?
    requires var slug := ClientSlug(client).value;
             (network, slug) in root && Publish.Servable(root[(network, slug)]) && root[(network, slug)].latest.Some?
    ensures var found := Discover(root, network, client);
            && found.Some? && found.value.network == network && Spells(client, found.value.client)
            && found.value.block == root[(network, found.value.client)].latest.value
            && Get(root, found.value.path) == Stream(Complete)
  {
    var slug := ClientSlug(client).value;
    SlugExactly(client, slug);
    var block := root[(network, slug)].latest.value;
    NumberIsPlain(block);
    SlugSlashless(slug);
    ServesLatest(root, network, slug);
    ServesArchive(root, network, slug, block);
  }

  lemma ServesLatest(root: Root, network: string, slug: string)
    requires network in NETWORKS && Slashless(slug) && (network, slug) in root && root[(network, slug)].latest.Some?
    ensures Get(root, LatestPath(network, slug)) == Text(TrimSpace(root[(network, slug)].latest.value))
  {
    RoutedPath(network, slug + "/" + LATEST);
    assert LatestPath(network, slug) == "/" + network + "/" + (slug + "/" + LATEST);
    LatestRoundTrip(network, slug);
  }

  lemma ServesArchive(root: Root, network: string, slug: string, block: string)
    requires network in NETWORKS && Slashless(slug) && Slashless(block) && (network, slug) in root
    requires block in root[(network, slug)].dirs && root[(network, slug)].dirs[block] != Missing
    ensures Get(root, ArchivePath(network, slug, block)) == Stream(root[(network, slug)].dirs[block])
  {
    RoutedPath(network, slug + "/" + block + "/" + ARCHIVE);
    assert ArchivePath(network, slug, block) == "/" + network + "/" + (slug + "/" + block + "/" + ARCHIVE);
    ArchiveRoundTrip(network, slug, block);
  }

  /** Up to its first slash, a path says its network. */
  lemma SameNetwork(n: string, network: string, tail: string)
    requires Slashless(n) && Slashless(network) && HasPrefix("/" + network + "/" + tail, "/" + n + "/")
    ensures n == network
  {
    var path, prefix := "/" + network + "/" + tail, "/" + n + "/";
    assert forall i :: 0 <= i < |n| ==> n[i] == prefix[i + 1] == path[i + 1];
    assert forall i :: 0 <= i < |network| ==> network[i] == path[i + 1];
    assert prefix[|n| + 1] == path[|n| + 1] == '/' == path[|network| + 1];
  }

  lemma RoutedExactly(network: string, tail: string)
    requires Slashless(network)
    ensures Routed("/" + network + "/" + tail) <==> network in NETWORKS
  {
    if network in NETWORKS {
      RoutedPath(network, tail);
    } else if Routed("/" + network + "/" + tail) {
      var n :| n in NETWORKS && HasPrefix("/" + network + "/" + tail, "/" + n + "/");
      RoutedPath(n, "");
      SameNetwork(n, network, tail);
    }
  }

  lemma LatestExactly(root: Root, network: string, slug: string)
    requires Slashless(network) && Slashless(slug)
    ensures Get(root, LatestPath(network, slug))
         == if network in {"mainnet", "sepolia", "hoodi", "holesky"} && (network, slug) in root
               && root[(network, slug)].latest.Some?
            then Text(TrimSpace(root[(network, slug)].latest.value)) else Missing404
  {
    assert LatestPath(network, slug) == "/" + network + "/" + (slug + "/" + LATEST);
    RoutedExactly(network, slug + "/" + LATEST);
    LatestRoundTrip(network, slug);
  }

  /** The path of an archive streams it exactly if its network is routed and it is there. */
  lemma ArchiveExactly(root: Root, network: string, slug: string, block: string)
    requires Slashless(network) && Slashless(slug) && Slashless(block)
    ensures Get(root, ArchivePath(network, slug, block))
         == if network in {"mainnet", "sepolia", "hoodi", "holesky"} && (network, slug) in root
               && block in root[(network, slug)].dirs && root[(network, slug)].dirs[block] != Missing
            then Stream(root[(network, slug)].dirs[block]) else Missing404
  {
    assert ArchivePath(network, slug, block) == "/" + network + "/" + (slug + "/" + block + "/" + ARCHIVE);
    RoutedExactly(network, slug + "/" + block + "/" + ARCHIVE);
    ArchiveRoundTrip(network, slug, block);
  }

  /** Discovery finds something exactly for a supported client in a routed network whose `latest`
      is there and not blank, and that is the block it names. */
  lemma DiscoverExactly(root: Root, network: string, client: string, slug: string, block: string)
    requires Slashless(network)
    ensures Discover(root, network, client) == Some(Info(network, slug, block, ArchivePath(network, slug, block)))
       <==> && Spells(client, slug) && network in NETWORKS && (network, slug) in root
            && root[(network, slug)].latest.Some?
            && block != "" && block == TrimSpace(root[(network, slug)].latest.value)
  {
    SlugExactly(client, slug);
    if ClientSlug(client) == Some(slug) {
      SlugSlashless(slug);
      LatestExactly(root, network, slug);
      if (network, slug) in root && root[(network, slug)].latest.Some? {
        TrimTwice(root[(network, slug)].latest.value);
      }
    }
  }

  /** End to end: whatever state a run of safe cycles passes through, once it has a `latest`
      the downloader discovers that block and is served its complete archive. */
  lemma EveryStateServes(
    root: Root, network: string, client: string, f: Folder, keep: int, cycles: seq<Publish.Cycle>, k: nat)
    requires network in NETWORKS && ClientSlug(client).Some?
    requires Publish.Servable(f) && Publish.Orderly(f, keep, cycles) && Publish.Safe(f, keep, cycles)
    requires k < |Publish.RunStates(f, keep, cycles)| && Publish.RunStates(f, keep, cycles)[k].latest.Some?
    ensures var now := Publish.RunStates(f, keep, cycles)[k];
            var found := Discover(root[(network, ClientSlug(client).value) := now], network, client);
            && found.Some? && found.value.block == now.latest.value
            && Get(root[(network, ClientSlug(client).value) := now], found.value.path) == Stream(Complete)
  {
    Publish.AlwaysServable(f, keep, cycles);
    DiscoverServes(root[(network, ClientSlug(client).value) := Publish.RunStates(f, keep, cycles)[k]], network, client);
  }
}
