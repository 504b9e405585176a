/**
 * pkg/driver/nodeserver.go: device resolution and mount sequencing on the
 * node. The host is a value: the two /dev/disk directories as lists of
 * entries, and oracles saying which directory reads, link reads, mkdirs,
 * symlinks, commands and unmounts fail. Each operation reports the host
 * effects it performs, in order.
 */
module Node {
  import opened Wrappers
  import opened Strings
  import opened Csi
  import Plugin

  const ByVolumeIdPath: string := "/dev/disk/by-volumeid"
  const ByIdPath: string := "/dev/disk/by-id"
  const StageFsType: string := "ext4"
  const MaxVolumesPerNode: int := 5
  const InstanceIdKey: string := "hyperstack.cloud/instance-id"

  /** A directory entry: its name and what os.Readlink reports for it. */
  datatype Entry = Entry(name: string, target: string)

  /** A command line given to exec.Command. */
  datatype Command = Command(program: string, args: seq<string>)

  datatype Effect =
    | MakeDir(path: string)                 // os.MkdirAll
    | Symlink(target: string, path: string) // os.Symlink
    | Run(command: Command)                 // exec.Command(...).CombinedOutput()
    | Unmount(path: string)                 // mount.IMount.UnmountPath

  datatype Host = Host(
    byVolumeId: seq<Entry>,          // contents of /dev/disk/by-volumeid, in no particular order
    byId: seq<Entry>,                // contents of /dev/disk/by-id, in no particular order
    unreadable: set<string>,         // directories os.ReadDir fails on
    brokenLinks: set<string>,        // by-id names os.Readlink fails on
    mkdirFails: set<string>,         // paths os.MkdirAll fails on
    symlinkFails: set<string>,       // link paths os.Symlink fails on
    tools: set<string>,              // programs exec.LookPath finds
    failingCommands: set<Command>,   // commands that exit with an error
    unmountFails: set<string>)       // paths UnmountPath fails on

  // ---------------------------------------------------------------------
  // os.ReadDir: the entries sorted by name

  /** Go's string order: byte-wise lexicographic (for the characters
      modelled here, the same as comparing code points). */
  predicate NameBefore(a: string, b: string)
    decreases |a|
  {
    |b| > 0 && (|a| == 0 || a[0] < b[0] || (a[0] == b[0] && NameBefore(a[1..], b[1..])))
  }

  lemma NameBeforeIrreflexive(a: string)
    ensures !NameBefore(a, a)
  {
  }

  lemma {:induction false} NameBeforeTransitive(a: string, b: string, c: string)
    requires NameBefore(a, b) && NameBefore(b, c)
    ensures NameBefore(a, c)
    decreases |a|
  {
    if |a| > 0 && a[0] == b[0] && b[0] == c[0] {
      NameBeforeTransitive(a[1..], b[1..], c[1..]);
    }
  }

  lemma {:induction false} NameBeforeTotal(a: string, b: string)
    requires a != b
    ensures NameBefore(a, b) || NameBefore(b, a)
    decreases |a|
  {
    if |a| > 0 && |b| > 0 && a[0] == b[0] {
      assert a == [a[0]] + a[1..] && b == [b[0]] + b[1..];
      NameBeforeTotal(a[1..], b[1..]);
    }
  }

  predicate Sorted(s: seq<Entry>) {
    forall i, j :: 0 <= i < j < |s| ==> !NameBefore(s[j].name, s[i].name)
  }

  /** `e` placed before the first entry whose name comes after its own. */
  function Insert(e: Entry, sorted: seq<Entry>): (r: seq<Entry>)
    ensures multiset(r) == multiset(sorted) + multiset{e}
    decreases |sorted|
  {
    if sorted == [] || NameBefore(e.name, sorted[0].name) then [e] + sorted
    else
      assert sorted == [sorted[0]] + sorted[1..];
      [sorted[0]] + Insert(e, sorted[1..])
  }

  lemma {:induction false} InsertSorted(e: Entry, sorted: seq<Entry>)
    requires Sorted(sorted)
    ensures Sorted(Insert(e, sorted))
    decreases |sorted|
  {
    if sorted == [] || NameBefore(e.name, sorted[0].name) {
      var r := [e] + sorted;
      forall i, j | 0 <= i < j < |r|
        ensures !NameBefore(r[j].name, r[i].name)
      {
        if i == 0 {
          if NameBefore(r[j].name, e.name) {
            NameBeforeTransitive(r[j].name, e.name, sorted[0].name);
            assert r[j] == sorted[j - 1];
            if j - 1 == 0 {
              NameBeforeIrreflexive(sorted[0].name);
            }
          }
        } else {
          assert r[i] == sorted[i - 1] && r[j] == sorted[j - 1];
        }
      }
    } else {
      var tail := sorted[1..];
      assert Sorted(tail) by {
        forall i, j | 0 <= i < j < |tail|
          ensures !NameBefore(tail[j].name, tail[i].name)
        {
          assert tail[i] == sorted[i + 1] && tail[j] == sorted[j + 1];
        }
      }
      InsertSorted(e, tail);
      var rest := Insert(e, tail);
      var r := [sorted[0]] + rest;
      forall i, j | 0 <= i < j < |r|
        ensures !NameBefore(r[j].name, r[i].name)
      {
        if i == 0 {
          assert r[j] in multiset(rest);
          if r[j] in multiset(tail) {
            var k :| 0 <= k < |tail| && tail[k] == r[j];
            assert sorted[k + 1] == r[j];
          } else {
            assert r[j] == e;
          }
        } else {
          assert r[i] == rest[i - 1] && r[j] == rest[j - 1];
        }
      }
    }
  }

  /** What os.ReadDir lists for a directory with these contents. */
  function ReadDir(contents: seq<Entry>): (r: seq<Entry>)
    ensures multiset(r) == multiset(contents)
    ensures Sorted(r)
    decreases |contents|
  {
    if contents == [] then []
    else
      var last := contents[|contents| - 1];
      var front := ReadDir(contents[..|contents| - 1]);
      assert contents == contents[..|contents| - 1] + [last];
      InsertSorted(last, front);
      Insert(last, front)
  }

  // ---------------------------------------------------------------------
  // createSymLink

  /** The marker string: "_", then each name followed by "_", in listing order. */
  function Marker(entries: seq<Entry>): string
    decreases |entries|
  {
    if entries == [] then "_" else Marker(entries[..|entries| - 1]) + entries[|entries| - 1].name + "_"
  }

  lemma {:induction false} MarkerEndsWithSeparator(entries: seq<Entry>)
    ensures |Marker(entries)| > 0 && Marker(entries)[|Marker(entries)| - 1] == '_'
    decreases |entries|
  {
  }

  /** Each listed name occurs in the marker with a separator on both sides. */
  lemma {:induction false} MarkerHoldsSegment(entries: seq<Entry>, i: nat)
    requires i < |entries|
    ensures Contains(Marker(entries), "_" + entries[i].name + "_")
    decreases |entries|
  {
    var front := entries[..|entries| - 1];
    var m := Marker(front);
    var name := entries[|entries| - 1].name;
    var whole := Marker(entries);
    assert whole == m + name + "_";
    if i == |entries| - 1 {
      MarkerEndsWithSeparator(front);
      var k := |m| - 1;
      var seg := "_" + name + "_";
      forall t | 0 <= t < |seg|
        ensures whole[k + t] == seg[t]
      {
      }
      assert whole[k..k + |seg|] == seg;
      OccursImpliesContains(whole, seg, k);
    } else {
      MarkerHoldsSegment(front, i);
      assert front[i] == entries[i];
      assert whole[..|m|] == m;
      assert OccursAt(whole, m, 0);
      ContainsThrough(whole, m, 0, "_" + entries[i].name + "_");
    }
  }

  /** The link createSymLink makes for a by-id entry: `<name>_<volume name>`,
      pointing at the entry's link target. */
  function LinkFor(e: Entry, vol: string): Entry {
    Entry(e.name + "_" + vol, e.target)
  }

  function LinkPath(link: Entry): string {
    ByVolumeIdPath + "/" + link.name
  }

  /** The links the second loop makes when nothing fails: one per by-id
      entry whose name is not a substring of the marker, in listing order. */
  function PlannedLinks(marker: string, entries: seq<Entry>, vol: string): (r: seq<Entry>)
    ensures |r| <= |entries|
    ensures forall e :: e in entries && !Contains(marker, e.name) ==> LinkFor(e, vol) in r
    ensures forall l :: l in r ==> exists e :: e in entries && !Contains(marker, e.name) && l == LinkFor(e, vol)
    decreases |entries|
  {
    if entries == [] then []
    else
      var rest := PlannedLinks(marker, entries[1..], vol);
      assert forall e :: e in entries ==> e == entries[0] || e in entries[1..];
      if Contains(marker, entries[0].name) then rest else [LinkFor(entries[0], vol)] + rest
  }

  /** The plan of a concatenated listing is the plans of its parts, one
      after the other: each uncovered entry contributes its link exactly
      once, in listing order. */
  lemma {:induction false} PlannedLinksAppend(marker: string, a: seq<Entry>, b: seq<Entry>, vol: string)
    ensures PlannedLinks(marker, a + b, vol) == PlannedLinks(marker, a, vol) + PlannedLinks(marker, b, vol)
    decreases |a|
  {
    if a == [] {
      assert a + b == b;
    } else {
      assert (a + b)[0] == a[0];
      assert (a + b)[1..] == a[1..] + b;
      PlannedLinksAppend(marker, a[1..], b, vol);
    }
  }

  /** A single entry is linked iff the marker does not cover its name. */
  lemma PlannedLinksSingle(marker: string, e: Entry, vol: string)
    ensures PlannedLinks(marker, [e], vol) == if Contains(marker, e.name) then [] else [LinkFor(e, vol)]
  {
    assert [e][1..] == [];
  }

  /** The second loop's outcome: the links made before it stopped, and the
      error that stopped it. */
  datatype Pass = Pass(links: seq<Entry>, err: Option<string>)

  /** The second loop of createSymLink over the by-id listing: every entry's
      link is read first (a failure stops the loop), and the entries not
      covered by the marker get their link (a failure stops the loop). */
  function LinkPass(marker: string, entries: seq<Entry>, vol: string, host: Host): Pass
    decreases |entries|
  {
    if entries == [] then Pass([], None)
    else
      var e := entries[0];
      if e.name in host.brokenLinks then Pass([], Some("createSymLink: failed to read link"))
      else if Contains(marker, e.name) then LinkPass(marker, entries[1..], vol, host)
      else if LinkPath(LinkFor(e, vol)) in host.symlinkFails then Pass([], Some("createSymLink: failed to create symlink"))
      else
        var rest := LinkPass(marker, entries[1..], vol, host);
        Pass([LinkFor(e, vol)] + rest.links, rest.err)
  }

  /** The loop makes the planned links in order and stops at the first
      failure; when it finishes without error it has made every planned link. */
  lemma {:induction false} LinkPassFollowsPlan(marker: string, entries: seq<Entry>, vol: string, host: Host)
    ensures var p := LinkPass(marker, entries, vol, host);
            |p.links| <= |PlannedLinks(marker, entries, vol)| &&
            p.links == PlannedLinks(marker, entries, vol)[..|p.links|]
    ensures var p := LinkPass(marker, entries, vol, host);
            p.err.None? ==> p.links == PlannedLinks(marker, entries, vol)
    decreases |entries|
  {
    if entries != [] {
      var e := entries[0];
      var rest := LinkPass(marker, entries[1..], vol, host);
      var plan := PlannedLinks(marker, entries[1..], vol);
      LinkPassFollowsPlan(marker, entries[1..], vol, host);
      if e.name !in host.brokenLinks && !Contains(marker, e.name) && LinkPath(LinkFor(e, vol)) !in host.symlinkFails {
        assert LinkPass(marker, entries, vol, host).links == [LinkFor(e, vol)] + rest.links;
        assert PlannedLinks(marker, entries, vol) == [LinkFor(e, vol)] + plan;
        assert ([LinkFor(e, vol)] + plan)[..1 + |rest.links|] == [LinkFor(e, vol)] + plan[..|rest.links|];
      }
    }
  }

  /** The loop finishes without error exactly when no link read fails and no
      planned link fails. */
  lemma {:induction false} LinkPassSucceedsIff(marker: string, entries: seq<Entry>, vol: string, host: Host)
    ensures LinkPass(marker, entries, vol, host).err.None? <==>
            forall e :: e in entries ==>
              e.name !in host.brokenLinks && (Contains(marker, e.name) || LinkPath(LinkFor(e, vol)) !in host.symlinkFails)
    decreases |entries|
  {
    if entries != [] {
      assert forall x :: x in entries ==> x == entries[0] || x in entries[1..];
      LinkPassSucceedsIff(marker, entries[1..], vol, host);
    }
  }

  /** What createSymLink does to the host: the directory creation, the two
      directory reads and the link loop. */
  function SymLinkOutcome(host: Host, vol: string): Pass {
    if ByVolumeIdPath in host.mkdirFails then Pass([], Some("failed to create directory"))
    else if ByVolumeIdPath in host.unreadable then Pass([], Some("createSymLink: failed to read by-volumeid directory"))
    else if ByIdPath in host.unreadable then Pass([], Some("createSymLink: failed to read by-id directory"))
    else LinkPass(Marker(ReadDir(host.byVolumeId)), ReadDir(host.byId), vol, host)
  }

  /** createSymLink's first loop: the marker of a by-volumeid listing. */
  method BuildMarker(listing: seq<Entry>) returns (marker: string)
    ensures marker == Marker(listing)
  {
    marker := "_";
    for i := 0 to |listing|
      invariant marker == Marker(listing[..i])
    {
      assert listing[..i + 1][..i] == listing[..i];
      marker := marker + listing[i].name + "_";
    }
    assert listing[..|listing|] == listing;
  }

  /** createSymLink's second loop over a by-id listing. */
  method MakeLinks(marker: string, entries: seq<Entry>, vol: string, host: Host) returns (links: seq<Entry>, err: Option<string>)
    ensures Pass(links, err) == LinkPass(marker, entries, vol, host)
  {
    links := [];
    for i := 0 to |entries|
      invariant LinkPass(marker, entries, vol, host) ==
                Pass(links + LinkPass(marker, entries[i..], vol, host).links, LinkPass(marker, entries[i..], vol, host).err)
    {
      var e := entries[i];
      assert entries[i..][1..] == entries[i + 1..];
      if e.name in host.brokenLinks {
        return links, Some("createSymLink: failed to read link");
      }
      if !Contains(marker, e.name) {
        var link := LinkFor(e, vol);
        if LinkPath(link) in host.symlinkFails {
          return links, Some("createSymLink: failed to create symlink");
        }
        links := links + [link];
      }
    }
    assert entries[|entries|..] == [];
    err := None;
  }

  method CreateSymLink(host: Host, vol: string) returns (links: seq<Entry>, err: Option<string>)
    ensures Pass(links, err) == SymLinkOutcome(host, vol)
  {
    if ByVolumeIdPath in host.mkdirFails {
      return [], Some("failed to create directory");
    }
    if ByVolumeIdPath in host.unreadable {
      return [], Some("createSymLink: failed to read by-volumeid directory");
    }
    var marker := BuildMarker(ReadDir(host.byVolumeId));
    if ByIdPath in host.unreadable {
      return [], Some("createSymLink: failed to read by-id directory");
    }
    links, err := MakeLinks(marker, ReadDir(host.byId), vol, host);
  }

  /** The host effects of a createSymLink that made `links`. */
  function SymLinkEffects(links: seq<Entry>): (r: seq<Effect>)
    ensures |r| == |links| + 1 && r[0] == MakeDir(ByVolumeIdPath)
    ensures forall i :: 0 <= i < |links| ==> r[i + 1] == Symlink(links[i].target, LinkPath(links[i]))
  {
    [MakeDir(ByVolumeIdPath)] + seq(|links|, i requires 0 <= i < |links| => Symlink(links[i].target, LinkPath(links[i])))
  }

  /** The host after the links are made. */
  function Linked(host: Host, links: seq<Entry>): Host {
    host.(byVolumeId := host.byVolumeId + links)
  }

  /** A name occurs in its own link's name. */
  lemma NameInLinkName(e: Entry, vol: string)
    ensures Contains(LinkFor(e, vol).name, e.name)
    ensures Contains(LinkFor(e, vol).name, vol)
  {
    var n := LinkFor(e, vol).name;
    assert n[..|e.name|] == e.name;
    assert HasPrefix(n, e.name);
    assert n[|e.name| + 1..] == vol;
    assert OccursAt(n, vol, |e.name| + 1);
    OccursImpliesContains(n, vol, |e.name| + 1);
  }

  /** Every entry of a directory shows up in the marker of its listing as a
      "_<name>_" segment. */
  lemma ListedSegment(contents: seq<Entry>, m: Entry)
    requires m in contents
    ensures Contains(Marker(ReadDir(contents)), "_" + m.name + "_")
  {
    var listing := ReadDir(contents);
    assert m in multiset(listing);
    var i :| 0 <= i < |listing| && listing[i] == m;
    MarkerHoldsSegment(listing, i);
  }

  /** Containment is transitive. */
  lemma ContainsTransitive(s: string, mid: string, sub: string)
    requires Contains(s, mid) && Contains(mid, sub)
    ensures Contains(s, sub)
  {
    var w := ContainsWitness(s, mid);
    ContainsThrough(s, mid, w, sub);
  }

  /** A second pass over an unchanged by-id listing makes a link only for a
      name the first marker contained across a separator: never for a name
      the first pass linked, and never for a name that lies inside one
      by-volumeid entry's "_<name>_" segment. */
  lemma SecondPassRelinksOnlyBoundaryMatches(byVolumeId: seq<Entry>, byId: seq<Entry>, vol: string)
    ensures var first := PlannedLinks(Marker(ReadDir(byVolumeId)), ReadDir(byId), vol);
            var again := PlannedLinks(Marker(ReadDir(byVolumeId + first)), ReadDir(byId), vol);
            forall l :: l in again ==>
              exists e :: e in byId && l == LinkFor(e, vol) && Contains(Marker(ReadDir(byVolumeId)), e.name) &&
                          forall m :: m in byVolumeId ==> !Contains("_" + m.name + "_", e.name)
  {
    var marker1 := Marker(ReadDir(byVolumeId));
    var first := PlannedLinks(marker1, ReadDir(byId), vol);
    var all := byVolumeId + first;
    var marker := Marker(ReadDir(all));
    forall e | e in ReadDir(byId) && !Contains(marker, e.name)
      ensures e in byId && Contains(marker1, e.name)
      ensures forall m :: m in byVolumeId ==> !Contains("_" + m.name + "_", e.name)
    {
      assert e in multiset(ReadDir(byId));
      if !Contains(marker1, e.name) {
        FirstLinkCoversName(byVolumeId, byId, vol, e);
      }
      forall m | m in byVolumeId
        ensures !Contains("_" + m.name + "_", e.name)
      {
        if Contains("_" + m.name + "_", e.name) {
          SegmentCoversName(all, m, e.name);
        }
      }
    }
  }

  /** A by-id entry the first pass links is covered by the second marker. */
  lemma FirstLinkCoversName(byVolumeId: seq<Entry>, byId: seq<Entry>, vol: string, e: Entry)
    requires e in ReadDir(byId) && !Contains(Marker(ReadDir(byVolumeId)), e.name)
    ensures Contains(Marker(ReadDir(byVolumeId + PlannedLinks(Marker(ReadDir(byVolumeId)), ReadDir(byId), vol))), e.name)
  {
    var all := byVolumeId + PlannedLinks(Marker(ReadDir(byVolumeId)), ReadDir(byId), vol);
    var link := LinkFor(e, vol);
    assert link in all;
    var seg := "_" + link.name + "_";
    assert OccursAt(seg, link.name, 1);
    OccursImpliesContains(seg, link.name, 1);
    NameInLinkName(e, vol);
    ContainsTransitive(seg, link.name, e.name);
    SegmentCoversName(all, link, e.name);
  }

  /** A name inside the "_<name>_" segment of a listed entry is covered by
      the marker. */
  lemma SegmentCoversName(contents: seq<Entry>, m: Entry, name: string)
    requires m in contents && Contains("_" + m.name + "_", name)
    ensures Contains(Marker(ReadDir(contents)), name)
  {
    ListedSegment(contents, m);
    ContainsTransitive(Marker(ReadDir(contents)), "_" + m.name + "_", name);
  }

  /** A second pass is not idle in general. Two by-volumeid entries "a" and
      "b" give the marker "_a_b_", which contains the by-id name "a_b" across
      the separator, so the first pass links only "a0". Its link "a0_v" sorts
      between "a" and "b", the new marker "_a_a0_v_b_" no longer contains
      "a_b", and the second pass links it. */
  lemma SecondPassCanRelink(a: Entry, b: Entry, a0: Entry, ab: Entry)
    requires a.name == "a" && b.name == "b" && a0.name == "a0" && ab.name == "a_b"
    ensures var first := PlannedLinks(Marker(ReadDir([a, b])), ReadDir([a0, ab]), "v");
            first == [LinkFor(a0, "v")] &&
            PlannedLinks(Marker(ReadDir([a, b] + first)), ReadDir([a0, ab]), "v") == [LinkFor(ab, "v")]
  {
    ExampleFirstPassLinks(a, b, a0, ab);
    ExampleSecondPassLinks(a, b, a0, ab);
  }

  lemma ExampleFirstPassLinks(a: Entry, b: Entry, a0: Entry, ab: Entry)
    requires a.name == "a" && b.name == "b" && a0.name == "a0" && ab.name == "a_b"
    ensures PlannedLinks(Marker(ReadDir([a, b])), ReadDir([a0, ab]), "v") == [LinkFor(a0, "v")]
  {
    ExampleFirstListing(a, b);
    ExampleByIdListing(a0, ab);
    ExampleFirstPass(a, b, a0, ab, LinkFor(a0, "v"));
  }

  lemma ExampleSecondPassLinks(a: Entry, b: Entry, a0: Entry, ab: Entry)
    requires a.name == "a" && b.name == "b" && a0.name == "a0" && ab.name == "a_b"
    ensures PlannedLinks(Marker(ReadDir([a, b] + [LinkFor(a0, "v")])), ReadDir([a0, ab]), "v") == [LinkFor(ab, "v")]
  {
    var link := LinkFor(a0, "v");
    assert link.name == "a0_v";
    assert [a, b] + [link] == [a, b, link];
    ExampleSecondListing(a, b, link);
    ExampleByIdListing(a0, ab);
    ExampleSecondPass(a, b, a0, ab, link);
  }

  lemma ExampleFirstListing(a: Entry, b: Entry)
    requires a.name == "a" && b.name == "b"
    ensures ReadDir([a, b]) == [a, b]
  {
    assert !NameBefore(b.name, a.name);
    assert [a, b][..1] == [a];
    assert ReadDir([a, b]) == Insert(b, [a]);
  }

  lemma ExampleByIdListing(a0: Entry, ab: Entry)
    requires a0.name == "a0" && ab.name == "a_b"
    ensures ReadDir([a0, ab]) == [a0, ab]
  {
    assert !NameBefore(ab.name, a0.name) by { assert !NameBefore("_b", "0"); }
    assert [a0, ab][..1] == [a0];
    assert ReadDir([a0, ab]) == Insert(ab, [a0]);
  }

  lemma ExampleSecondListing(a: Entry, b: Entry, link: Entry)
    requires a.name == "a" && b.name == "b" && link.name == "a0_v"
    ensures ReadDir([a, b, link]) == [a, link, b]
  {
    ExampleFirstListing(a, b);
    assert NameBefore(link.name, b.name);
    assert !NameBefore(link.name, a.name) by { assert !NameBefore("0_v", ""); }
    assert [a, b, link][..2] == [a, b];
    assert ReadDir([a, b, link]) == Insert(link, [a, b]);
    assert [a, b][1..] == [b];
  }

  lemma ExampleFirstPass(a: Entry, b: Entry, a0: Entry, ab: Entry, link: Entry)
    requires a.name == "a" && b.name == "b" && a0.name == "a0" && ab.name == "a_b"
    requires link == LinkFor(a0, "v")
    ensures PlannedLinks(Marker([a, b]), [a0, ab], "v") == [link]
  {
    var marker := Marker([a, b]);
    assert marker == "_a_b_" by {
      MarkerOfTwo(a, b);
    }
    ExampleFirstMarker();
    PlannedOfTwo(marker, a0, ab, "v");
  }

  lemma ExampleSecondPass(a: Entry, b: Entry, a0: Entry, ab: Entry, link: Entry)
    requires a.name == "a" && b.name == "b" && a0.name == "a0" && ab.name == "a_b" && link.name == "a0_v"
    ensures PlannedLinks(Marker([a, link, b]), [a0, ab], "v") == [LinkFor(ab, "v")]
  {
    var marker := Marker([a, link, b]);
    assert marker == "_a_a0_v_b_" by {
      MarkerOfThree(a, link, b);
      ExampleSecondMarkerText();
    }
    ExampleSecondMarker();
    PlannedOfTwo(marker, a0, ab, "v");
  }

  /** The plan for a two-entry listing, entry by entry. */
  lemma PlannedOfTwo(marker: string, x: Entry, y: Entry, vol: string)
    ensures PlannedLinks(marker, [x, y], vol) ==
            (if Contains(marker, x.name) then [] else [LinkFor(x, vol)]) +
            (if Contains(marker, y.name) then [] else [LinkFor(y, vol)])
  {
    assert [x, y][1..] == [y];
    assert [y][1..] == [];
  }

  lemma MarkerOfTwo(x: Entry, y: Entry)
    ensures Marker([x, y]) == "_" + x.name + "_" + y.name + "_"
  {
    assert [x][..0] == [];
    assert Marker([x]) == "_" + x.name + "_";
    assert [x, y][..1] == [x];
  }

  lemma MarkerOfThree(x: Entry, y: Entry, z: Entry)
    ensures Marker([x, y, z]) == "_" + x.name + "_" + y.name + "_" + z.name + "_"
  {
    MarkerOfTwo(x, y);
    assert [x, y, z][..2] == [x, y];
  }

  /** "_a_b_" holds "a_b" but not "a0". */
  lemma ExampleFirstMarker()
    ensures Contains("_a_b_", "a_b") && !Contains("_a_b_", "a0")
  {
    var marker := "_a_b_";
    forall i: nat
      ensures !OccursAt(marker, "a0", i)
    {
      if i + 2 <= |marker| {
        assert marker[i..i + 2][1] == marker[i + 1];
      }
    }
    NoOccurrence(marker, "a0");
    assert marker[1..4] == "a_b";
    OccursImpliesContains(marker, "a_b", 1);
  }

  lemma ExampleSecondMarkerText()
    ensures "_" + "a" + "_" + "a0_v" + "_" + "b" + "_" == "_a_a0_v_b_"
  {
  }

  /** "_a_a0_v_b_" holds "a0" but not "a_b". */
  lemma ExampleSecondMarker()
    ensures Contains("_a_a0_v_b_", "a0") && !Contains("_a_a0_v_b_", "a_b")
  {
    var marker := "_a_a0_v_b_";
    forall i: nat
      ensures !OccursAt(marker, "a_b", i)
    {
      if i + 3 <= |marker| {
        if i == 1 {
          assert marker[i + 2] != 'b';
        } else if i == 3 {
          assert marker[i + 1] != '_';
        } else {
          assert marker[i] != 'a';
        }
        assert marker[i..i + 3][0] == marker[i] && marker[i..i + 3][1] == marker[i + 1] && marker[i..i + 3][2] == marker[i + 2];
      }
    }
    NoOccurrence(marker, "a_b");
    assert marker[3..5][0] == marker[3] && marker[3..5][1] == marker[4];
    OccursImpliesContains(marker, "a0", 3);
  }

  // ---------------------------------------------------------------------
  // getDevicePathToMount

  /** The first entry whose name contains `vol`. */
  function FirstContaining(entries: seq<Entry>, vol: string): (r: Option<Entry>)
    ensures r.Some? ==> exists i :: 0 <= i < |entries| && entries[i] == r.value && Contains(r.value.name, vol) &&
                                    forall j :: 0 <= j < i ==> !Contains(entries[j].name, vol)
    ensures r.None? <==> forall e :: e in entries ==> !Contains(e.name, vol)
    decreases |entries|
  {
    if entries == [] then None
    else if Contains(entries[0].name, vol) then Some(entries[0])
    else
      var r := FirstContaining(entries[1..], vol);
      assert forall i :: 0 < i < |entries| ==> entries[i] == entries[1..][i - 1];
      assert forall e :: e in entries ==> e == entries[0] || e in entries[1..];
      r
  }

  method GetDevicePathToMount(host: Host, vol: string) returns (r: Result<string>)
    ensures ByVolumeIdPath in host.unreadable ==> r.Failure?
    ensures ByVolumeIdPath !in host.unreadable ==>
            (r.Success? <==> FirstContaining(ReadDir(host.byVolumeId), vol).Some?)
    ensures r.Success? ==> r.value == ByVolumeIdPath + "/" + FirstContaining(ReadDir(host.byVolumeId), vol).value.name
  {
    if ByVolumeIdPath in host.unreadable {
      return Failure("error reading the device path " + ByVolumeIdPath);
    }
    var byVolumeIdSymlinks := ReadDir(host.byVolumeId);
    for i := 0 to |byVolumeIdSymlinks|
      invariant FirstContaining(byVolumeIdSymlinks[i..], vol) == FirstContaining(byVolumeIdSymlinks, vol)
    {
      assert byVolumeIdSymlinks[i..][1..] == byVolumeIdSymlinks[i + 1..];
      if Contains(byVolumeIdSymlinks[i].name, vol) {
        return Success(ByVolumeIdPath + "/" + byVolumeIdSymlinks[i].name);
      }
    }
    return Failure("device path not found for " + vol);
  }

  /** Resolution picks, among all by-volumeid entries whose name contains the
      volume name, the one whose name sorts first. */
  lemma DeviceIsLeastMatchingName(byVolumeId: seq<Entry>, vol: string, m: Entry)
    requires m in byVolumeId && Contains(m.name, vol)
    ensures FirstContaining(ReadDir(byVolumeId), vol).Some?
    ensures !NameBefore(m.name, FirstContaining(ReadDir(byVolumeId), vol).value.name)
  {
    var listing := ReadDir(byVolumeId);
    assert m in multiset(listing);
    var k :| 0 <= k < |listing| && listing[k] == m;
    var r := FirstContaining(listing, vol);
    var i :| 0 <= i < |listing| && listing[i] == r.value && Contains(r.value.name, vol) &&
             forall j :: 0 <= j < i ==> !Contains(listing[j].name, vol);
    if k != i {
      assert i < k;
    } else {
      NameBeforeIrreflexive(m.name);
    }
  }

  /** Once a link was made for the volume, resolution succeeds. */
  lemma LinkedVolumeResolves(host: Host, links: seq<Entry>, e: Entry, vol: string)
    requires LinkFor(e, vol) in links
    ensures FirstContaining(ReadDir(Linked(host, links).byVolumeId), vol).Some?
  {
    NameInLinkName(e, vol);
    DeviceIsLeastMatchingName(host.byVolumeId + links, vol, LinkFor(e, vol));
  }

  /** With no volume name (the publish context lacks it), every name matches
      and resolution takes the first entry of the listing. */
  lemma EmptyVolumeNameTakesFirstEntry(entries: seq<Entry>)
    ensures FirstContaining(entries, "") == if entries == [] then None else Some(entries[0])
  {
    if entries != [] {
      assert HasPrefix(entries[0].name, "");
    }
  }

  // ---------------------------------------------------------------------
  // formateAndMakeFS and mountDevice

  function MkfsCommand(device: string, fsType: string): Command {
    Command("mkfs." + fsType, ["-F", device])
  }

  method FormatAndMakeFS(host: Host, device: string, fsType: string) returns (err: Option<string>, effects: seq<Effect>)
    ensures "mkfs." + fsType !in host.tools ==> err.Some? && effects == []
    ensures "mkfs." + fsType in host.tools ==>
            effects == [Run(MkfsCommand(device, fsType))] && (err.Some? <==> MkfsCommand(device, fsType) in host.failingCommands)
  {
    var mkfsCmd := "mkfs." + fsType;
    if mkfsCmd !in host.tools {
      return Some("unable to find the mkfs (" + mkfsCmd + ") utility"), [];
    }
    var mkfsArgs := ["-F", device];
    var cmd := Command(mkfsCmd, mkfsArgs);
    effects := [Run(cmd)];
    err := if cmd in host.failingCommands then Some("create fs command failed") else None;
  }

  /** mount's arguments: the file-system type, the joined options only when
      there are any, then source and target. */
  function MountArgs(source: string, target: string, fsType: string, options: seq<string>): (args: seq<string>)
    ensures |args| == if options == [] then 4 else 6
    ensures args[..2] == ["-t", fsType]
    ensures args[|args| - 2..] == [source, target]
    ensures options != [] ==> args[2..4] == ["-o", Join(options, ",")]
  {
    ["-t", fsType] + (if options == [] then [] else ["-o", Join(options, ",")]) + [source, target]
  }

  method MountDevice(host: Host, source: string, target: string, fsType: string, options: seq<string>)
    returns (err: Option<string>, effects: seq<Effect>)
    ensures fsType == "" ==> err.Some? && effects == []
    ensures fsType != "" && target in host.mkdirFails ==> err.Some? && effects == [MakeDir(target)]
    ensures fsType != "" && target !in host.mkdirFails ==>
            effects == [MakeDir(target), Run(Command("mount", MountArgs(source, target, fsType, options)))] &&
            (err.Some? <==> Command("mount", MountArgs(source, target, fsType, options)) in host.failingCommands)
  {
    if fsType == "" {
      return Some("fstype is not provided"), [];
    }
    var mountArgs: seq<string> := [];
    effects := [MakeDir(target)];
    if target in host.mkdirFails {
      return Some("creating the target dir"), effects;
    }
    mountArgs := mountArgs + ["-t", fsType];
    if |options| > 0 {
      mountArgs := mountArgs + ["-o", Join(options, ",")];
    }
    mountArgs := mountArgs + [source];
    mountArgs := mountArgs + [target];
    assert mountArgs == MountArgs(source, target, fsType, options);
    var cmd := Command("mount", mountArgs);
    effects := effects + [Run(cmd)];
    err := if cmd in host.failingCommands then Some("mounting the source failed") else None;
  }

  // ---------------------------------------------------------------------
  // Node RPCs

  /** The backend volume name NodeStageVolume reads from the publish context ("" when absent). */
  function StagedName(publishContext: map<string, string>): string {
    if Plugin.VolNameKey in publishContext then publishContext[Plugin.VolNameKey] else ""
  }

  /** The device NodeStageVolume resolves once the links are made. */
  function StagedDevice(host: Host, vol: string): Option<string> {
    var linked := Linked(host, SymLinkOutcome(host, vol).links);
    if ByVolumeIdPath in host.unreadable then None
    else match FirstContaining(ReadDir(linked.byVolumeId), vol)
      case None => None
      case Some(e) => Some(ByVolumeIdPath + "/" + e.name)
  }

  /** What NodeStageVolume runs once the device is resolved: mkfs.ext4 on
      the device, the staging directory, and a mount without options. */
  function StageCommands(device: string, stagingTargetPath: string): (r: seq<Effect>)
    ensures r == [Run(Command("mkfs.ext4", ["-F", device])), MakeDir(stagingTargetPath),
                  Run(Command("mount", ["-t", "ext4", device, stagingTargetPath]))]
  {
    assert "mkfs." + StageFsType == "mkfs.ext4";
    assert MkfsCommand(device, StageFsType) == Command("mkfs.ext4", ["-F", device]);
    assert MountArgs(device, stagingTargetPath, StageFsType, []) == ["-t", "ext4", device, stagingTargetPath];
    [Run(MkfsCommand(device, StageFsType)), MakeDir(stagingTargetPath),
     Run(Command("mount", MountArgs(device, stagingTargetPath, StageFsType, [])))]
  }

  /** The mount command of NodeStageVolume's last step. */
  function StageMountCommand(device: string, stagingTargetPath: string): Command {
    Command("mount", MountArgs(device, stagingTargetPath, StageFsType, []))
  }

  /** Formatting and mounting `device` succeeds: mkfs.ext4 is installed and
      runs, the staging directory is created and the mount runs. */
  predicate StageSucceeds(host: Host, device: string, stagingTargetPath: string) {
    "mkfs." + StageFsType in host.tools && MkfsCommand(device, StageFsType) !in host.failingCommands &&
    stagingTargetPath !in host.mkdirFails && StageMountCommand(device, stagingTargetPath) !in host.failingCommands
  }

  /** The effects of formatting and mounting `device`: the steps of
      StageCommands up to and including the first one that fails. */
  function StageEffects(host: Host, device: string, stagingTargetPath: string): seq<Effect> {
    if "mkfs." + StageFsType !in host.tools then []
    else if MkfsCommand(device, StageFsType) in host.failingCommands then [Run(MkfsCommand(device, StageFsType))]
    else if stagingTargetPath in host.mkdirFails then [Run(MkfsCommand(device, StageFsType)), MakeDir(stagingTargetPath)]
    else [Run(MkfsCommand(device, StageFsType)), MakeDir(stagingTargetPath), Run(StageMountCommand(device, stagingTargetPath))]
  }

  /** The effects are a prefix of StageCommands; all of it is run exactly
      when no step before the mount fails, and a failed mkfs runs nothing after it. */
  lemma StageEffectsFollowCommands(host: Host, device: string, stagingTargetPath: string)
    ensures var e := StageEffects(host, device, stagingTargetPath);
            |e| <= 3 && e == StageCommands(device, stagingTargetPath)[..|e|]
    ensures StageSucceeds(host, device, stagingTargetPath) ==>
            StageEffects(host, device, stagingTargetPath) == StageCommands(device, stagingTargetPath)
    ensures MkfsCommand(device, StageFsType) in host.failingCommands ==> |StageEffects(host, device, stagingTargetPath)| <= 1
  {
    var c := StageCommands(device, stagingTargetPath);
    assert c[..0] == [] && c[..1] == [c[0]] && c[..2] == [c[0], c[1]] && c[..3] == c;
  }

  /** The four steps in order, stopping at the first failure; the helpers'
      errors are returned as they are, which gRPC reports as Unknown. */
  method NodeStageVolume(host: Host, publishContext: map<string, string>, stagingTargetPath: string)
    returns (r: Reply<()>, effects: seq<Effect>)
    ensures r.Err? ==> r.code == Unknown
    ensures !r.Panic?
    ensures var s := SymLinkOutcome(host, StagedName(publishContext));
            |effects| >= |SymLinkEffects(s.links)| && effects[..|SymLinkEffects(s.links)|] == SymLinkEffects(s.links)
    ensures var s := SymLinkOutcome(host, StagedName(publishContext));
            s.err.Some? || StagedDevice(host, StagedName(publishContext)).None? ==>
              r == Err(Unknown) && effects == SymLinkEffects(s.links)
    ensures r.Ok? ==>
            var s := SymLinkOutcome(host, StagedName(publishContext));
            var device := StagedDevice(host, StagedName(publishContext));
            device.Some? &&
            effects == SymLinkEffects(s.links) + StageCommands(device.value, stagingTargetPath)
    ensures var s := SymLinkOutcome(host, StagedName(publishContext));
            var device := StagedDevice(host, StagedName(publishContext));
            s.err.None? && device.Some? ==>
              effects == SymLinkEffects(s.links) + StageEffects(host, device.value, stagingTargetPath) &&
              (r.Ok? <==> StageSucceeds(host, device.value, stagingTargetPath))
  {
    var vol := StagedName(publishContext);
    var links, err := CreateSymLink(host, vol);
    effects := SymLinkEffects(links);
    if err.Some? {
      return Err(Unknown), effects;
    }
    var linked := Linked(host, links);
    var device := GetDevicePathToMount(linked, vol);
    if device.Failure? {
      return Err(Unknown), effects;
    }
    assert StagedDevice(host, vol) == Some(device.value);
    var stageErr, stageEffects := FormatAndMount(linked, device.value, stagingTargetPath);
    effects := effects + stageEffects;
    if stageErr.Some? {
      return Err(Unknown), effects;
    }
    return Ok(()), effects;
  }

  /** The last two steps of NodeStageVolume: formatting `device` as ext4 and
      mounting it on the staging path. */
  method FormatAndMount(host: Host, device: string, stagingTargetPath: string)
    returns (err: Option<string>, effects: seq<Effect>)
    ensures err.None? ==> effects == StageCommands(device, stagingTargetPath)
    ensures effects == StageEffects(host, device, stagingTargetPath)
    ensures err.None? <==> StageSucceeds(host, device, stagingTargetPath)
  {
    var fsErr, fsEffects := FormatAndMakeFS(host, device, StageFsType);
    effects := fsEffects;
    if fsErr.Some? {
      return fsErr, effects;
    }
    var mountErr, mountEffects := MountDevice(host, device, stagingTargetPath, StageFsType, []);
    effects := effects + mountEffects;
    return mountErr, effects;
  }

  /** A node handler's reply together with the host effects it performed. */
  datatype NodeOutcome = NodeOutcome(reply: Reply<()>, effects: seq<Effect>)

  /** The volume id is checked first, then the staging path; only then is
      the staging path unmounted. */
  function NodeUnstageVolume(host: Host, volumeId: string, stagingTargetPath: string): (r: NodeOutcome)
    ensures volumeId == "" || stagingTargetPath == "" ==> r == NodeOutcome(Err(InvalidArgument), [])
    ensures r.effects != [] ==> volumeId != "" && stagingTargetPath != "" && r.effects == [Unmount(stagingTargetPath)]
    ensures volumeId != "" && stagingTargetPath != "" ==>
            r.effects == [Unmount(stagingTargetPath)] &&
            r.reply == (if stagingTargetPath in host.unmountFails then Err(Internal) else Ok(()))
    ensures r.reply.Err? ==> r.reply.code in {InvalidArgument, Internal}
  {
    if |volumeId| == 0 then NodeOutcome(Err(InvalidArgument), [])
    else if |stagingTargetPath| == 0 then NodeOutcome(Err(InvalidArgument), [])
    else if stagingTargetPath in host.unmountFails then NodeOutcome(Err(Internal), [Unmount(stagingTargetPath)])
    else NodeOutcome(Ok(()), [Unmount(stagingTargetPath)])
  }

  /** The options of the bind mount: "bind", then "ro" for a read-only request. */
  method PublishOptions(readonly: bool) returns (options: seq<string>)
    ensures options == if readonly then ["bind", "ro"] else ["bind"]
  {
    options := ["bind"];
    if readonly {
      options := options + ["ro"];
    }
  }

  /** Bind-mounts the staging path onto the target path. A capability
      without a mount access type (block, or none at all) has no mount
      message, and reading its FsType is a nil dereference. */
  method NodePublishVolume(host: Host, readonly: bool, capability: VolumeCapability,
                           stagingTargetPath: string, targetPath: string)
    returns (r: Reply<()>, effects: seq<Effect>)
    ensures !capability.accessType.MountVolume? ==> r == Panic && effects == []
    ensures capability.accessType.MountVolume? ==>
            var fsType := if capability.accessType.fsType != "" then capability.accessType.fsType else "ext4";
            var mount := Command("mount", ["-t", fsType, "-o", if readonly then "bind,ro" else "bind", stagingTargetPath, targetPath]);
            (targetPath in host.mkdirFails ==> r == Err(Internal) && effects == [MakeDir(targetPath)]) &&
            (targetPath !in host.mkdirFails ==>
               effects == [MakeDir(targetPath), Run(mount)] &&
               r == (if mount in host.failingCommands then Err(Internal) else Ok(())))
    ensures r.Err? ==> r.code == Internal
  {
    var options := PublishOptions(readonly);
    if !capability.accessType.MountVolume? {
      return Panic, [];
    }
    var fsType := "ext4";
    if capability.accessType.fsType != "" {
      fsType := capability.accessType.fsType;
    }
    assert Join(options, ",") == if readonly then "bind,ro" else "bind" by {
      if readonly {
        assert options[1..] == ["ro"];
      }
    }
    assert MountArgs(stagingTargetPath, targetPath, fsType, options) ==
           ["-t", fsType, "-o", if readonly then "bind,ro" else "bind", stagingTargetPath, targetPath];
    var err;
    err, effects := MountDevice(host, stagingTargetPath, targetPath, fsType, options);
    if err.Some? {
      return Err(Internal), effects;
    }
    return Ok(()), effects;
  }

  /** The target path is checked first, then the volume id; only then is
      the target path unmounted. */
  function NodeUnpublishVolume(host: Host, volumeId: string, targetPath: string): (r: NodeOutcome)
    ensures volumeId == "" || targetPath == "" ==> r == NodeOutcome(Err(InvalidArgument), [])
    ensures r.effects != [] ==> volumeId != "" && targetPath != "" && r.effects == [Unmount(targetPath)]
    ensures volumeId != "" && targetPath != "" ==>
            r.effects == [Unmount(targetPath)] &&
            r.reply == (if targetPath in host.unmountFails then Err(Internal) else Ok(()))
    ensures r.reply.Err? ==> r.reply.code in {InvalidArgument, Internal}
  {
    if |targetPath| == 0 then NodeOutcome(Err(InvalidArgument), [])
    else if |volumeId| == 0 then NodeOutcome(Err(InvalidArgument), [])
    else if targetPath in host.unmountFails then NodeOutcome(Err(Internal), [Unmount(targetPath)])
    else NodeOutcome(Ok(()), [Unmount(targetPath)])
  }

  datatype NodeInfo = NodeInfo(nodeId: string, maxVolumesPerNode: int, accessibleTopology: Topology)

  /** `instanceLabel` is the node label hyperstack.cloud/instance-id as the
      cluster API reports it; a failed lookup is a plain error (gRPC Unknown). */
  function NodeGetInfo(instanceLabel: Result<string>): (r: Reply<NodeInfo>)
    ensures instanceLabel.Failure? <==> r == Err(Unknown)
    ensures r.Ok? ==> r.value.nodeId == instanceLabel.value && r.value.maxVolumesPerNode == 5 &&
                      r.value.accessibleTopology.segments == map[InstanceIdKey := instanceLabel.value]
  {
    match instanceLabel
    case Failure(_) => Err(Unknown)
    case Success(id) => Ok(NodeInfo(id, MaxVolumesPerNode, Topology(map[InstanceIdKey := id])))
  }
}
