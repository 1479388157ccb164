/**
 Choosing the hosts of a deployment and, for an image of one partition, the partition it replaces on
 each of them.
 */
module Targets {
  import opened Options
  import opened Text

  datatype HostPartition = HostPartition(number: int, partuuid: string, sizeBytes: nat, uuid: Option<string>,
                                         fsLabel: Option<string>)
  datatype Host = Host(id: int, diskUsable: bool, partitions: seq<HostPartition>)
  datatype Source = Source(sizeBytes: nat, fsUuid: Option<string>, fsLabel: Option<string>)
  datatype ImageKind = Disk | Partition
  datatype Image = Image(kind: ImageKind, partitions: seq<Source>)

  // ----- the hosts of a deployment -----------------------------------------------------------------

  predicate Distinct(ids: seq<int>) {
    forall i, j :: 0 <= i < j < |ids| ==> ids[i] != ids[j]
  }

  /** The hosts asked for, in that order, when all of them exist, none is asked for twice and every one
      has a usable disk. */
  method ImagingTargets(all: map<int, Host>, ids: seq<int>) returns (hosts: Option<seq<Host>>)
    ensures hosts.Some? <==>
            Distinct(ids) && forall i :: 0 <= i < |ids| ==> ids[i] in all && all[ids[i]].diskUsable
    ensures hosts.Some? ==> hosts.value == seq(|ids|, i requires 0 <= i < |ids| && ids[i] in all => all[ids[i]])
  {
    var known := all;
    var found: seq<Host> := [];
    var n := 0;
    while n < |ids|
      invariant 0 <= n <= |ids| && Distinct(ids[..n])
      invariant forall i :: 0 <= i < n ==> ids[i] in all
      invariant forall id :: id in known <==> id in all && id !in ids[..n]
      invariant forall id :: id in known ==> known[id] == all[id]
      invariant found == seq(n, i requires 0 <= i < n && ids[i] in all => all[ids[i]])
    {
      if ids[n] !in known {
        assert ids[n] in all ==> exists i :: 0 <= i < n && ids[i] == ids[n];
        return None;
      }
      forall i | 0 <= i < n ensures ids[i] != ids[n] {
        assert ids[..n][i] == ids[i] && ids[i] in ids[..n];
      }
      found := found + [known[ids[n]]];
      known := known - {ids[n]};
      assert ids[..n + 1] == ids[..n] + [ids[n]];
      n := n + 1;
    }
    assert ids[..n] == ids;
    n := 0;
    while n < |found|
      invariant 0 <= n <= |found| && forall i :: 0 <= i < n ==> found[i].diskUsable
    {
      assert found[n] == all[ids[n]];
      if !found[n].diskUsable {
        return None;
      }
      n := n + 1;
    }
    assert forall i :: 0 <= i < |ids| ==> found[i] == all[ids[i]];
    hosts := Some(found);
  }

  // ----- the partition an image replaces -----------------------------------------------------------

  /** The position of the first partition with that PARTUUID, whatever its case. */
  function Find(partitions: seq<HostPartition>, partuuid: string): (at: Option<nat>)
    ensures at.Some? ==> at.value < |partitions| && EqIgnoreCase(partitions[at.value].partuuid, partuuid)
    ensures at.Some? ==> forall i :: 0 <= i < at.value ==> !EqIgnoreCase(partitions[i].partuuid, partuuid)
    ensures at.None? ==> forall i :: 0 <= i < |partitions| ==> !EqIgnoreCase(partitions[i].partuuid, partuuid)
  {
    if partitions == [] then None
    else if EqIgnoreCase(partitions[0].partuuid, partuuid) then Some(0)
    else
      var rest := Find(partitions[1..], partuuid);
      if rest.None? then None else Some(rest.value + 1)
  }

  predicate HoldsUuid(p: HostPartition, source: Source) {
    source.fsUuid.Some? && p.uuid.Some? && EqIgnoreCase(p.uuid.value, source.fsUuid.value)
  }

  predicate HoldsLabel(p: HostPartition, source: Source) {
    source.fsLabel.Some? && p.fsLabel == source.fsLabel
  }

  /** The partition is large enough, and no other one of the host holds the image's filesystem. */
  predicate CanReplace(source: Source, partitions: seq<HostPartition>, at: nat)
    requires at < |partitions|
  {
    && partitions[at].sizeBytes >= source.sizeBytes
    && forall i :: 0 <= i < |partitions| && partitions[i].number != partitions[at].number ==>
         !HoldsUuid(partitions[i], source) && !HoldsLabel(partitions[i], source)
  }

  /** No partition with another number has the image's UUID, whatever its case, or its label. */
  lemma CanReplaceMeans(source: Source, partitions: seq<HostPartition>, at: nat)
    requires at < |partitions|
    ensures CanReplace(source, partitions, at) <==>
            && source.sizeBytes <= partitions[at].sizeBytes
            && forall i :: 0 <= i < |partitions| && partitions[i].number != partitions[at].number ==>
                 && (source.fsUuid.Some? && partitions[i].uuid.Some? ==>
                       !EqIgnoreCase(partitions[i].uuid.value, source.fsUuid.value))
                 && (source.fsLabel.Some? ==> partitions[i].fsLabel != source.fsLabel)
  {
  }

  predicate HostFits(source: Source, host: Host, wanted: map<int, string>) {
    && host.id in wanted
    && var at := Find(host.partitions, wanted[host.id]);
       at.Some? && CanReplace(source, host.partitions, at.value)
  }

  function Ids(hosts: seq<Host>): seq<int> {
    seq(|hosts|, i requires 0 <= i < |hosts| => hosts[i].id)
  }

  /** When a request to deploy the image to the hosts is accepted. */
  predicate Plannable(image: Image, hosts: seq<Host>, wanted: map<int, string>) {
    match image.kind
    case Disk => wanted == map[]
    case Partition =>
      && |image.partitions| == 1 && Distinct(Ids(hosts))
      && (forall id :: id in wanted ==> id in Ids(hosts))
      && forall i :: 0 <= i < |hosts| ==> HostFits(image.partitions[0], hosts[i], wanted)
  }

  /** Each host's target, as the host itself spells its PARTUUID. */
  ghost predicate AreTargets(hosts: seq<Host>, wanted: map<int, string>, targets: map<int, string>) {
    && (forall id :: id in targets <==> id in Ids(hosts))
    && forall i :: 0 <= i < |hosts| ==>
         && hosts[i].id in wanted && hosts[i].id in targets && Find(hosts[i].partitions, wanted[hosts[i].id]).Some?
         && targets[hosts[i].id] == hosts[i].partitions[Find(hosts[i].partitions, wanted[hosts[i].id]).value].partuuid
  }

  method Twin(source: Source, partitions: seq<HostPartition>, at: nat) returns (twin: bool)
    requires at < |partitions|
    ensures twin <==> exists i :: 0 <= i < |partitions| && partitions[i].number != partitions[at].number
                        && (HoldsUuid(partitions[i], source) || HoldsLabel(partitions[i], source))
  {
    twin := false;
    var i := 0;
    while i < |partitions|
      invariant 0 <= i <= |partitions|
      invariant forall j :: 0 <= j < i && partitions[j].number != partitions[at].number ==>
                  !HoldsUuid(partitions[j], source) && !HoldsLabel(partitions[j], source)
    {
      if partitions[i].number != partitions[at].number
         && (HoldsUuid(partitions[i], source) || HoldsLabel(partitions[i], source)) {
        return true;
      }
      i := i + 1;
    }
  }

  /** One host's target, if the host has it and it fits. */
  method TargetOf(source: Source, host: Host, partuuid: string) returns (at: Option<nat>)
    ensures at.Some? <==> Find(host.partitions, partuuid).Some?
                          && CanReplace(source, host.partitions, Find(host.partitions, partuuid).value)
    ensures at.Some? ==> at == Find(host.partitions, partuuid)
  {
    at := Find(host.partitions, partuuid);
    if at.None? || host.partitions[at.value].sizeBytes < source.sizeBytes {
      return None;
    }
    var twin := Twin(source, host.partitions, at.value);
    if twin {
      return None;
    }
  }

  /** The wishes of the first hosts have been taken out. */
  ghost predicate LeftOver(wanted: map<int, string>, left: map<int, string>, ids: seq<int>) {
    (forall id :: id in left <==> id in wanted && id !in ids) && forall id :: id in left ==> left[id] == wanted[id]
  }

  lemma TakeOneOut(wanted: map<int, string>, left: map<int, string>, ids: seq<int>, n: nat)
    requires n < |ids| && Distinct(ids[..n]) && LeftOver(wanted, left, ids[..n]) && ids[n] in left
    ensures Distinct(ids[..n + 1]) && LeftOver(wanted, left - {ids[n]}, ids[..n + 1])
  {
    assert ids[..n + 1] == ids[..n] + [ids[n]];
  }

  lemma NotLeft(wanted: map<int, string>, left: map<int, string>, ids: seq<int>, n: nat)
    requires n < |ids| && LeftOver(wanted, left, ids[..n]) && ids[n] !in left
    ensures ids[n] !in wanted || !Distinct(ids)
  {
    var id, before := ids[n], ids[..n];
    assert id in left <==> id in wanted && id !in before;
    if id in before {
      var i :| 0 <= i < |before| && before[i] == id;
      assert ids[i] == ids[n];
    }
  }

  /** Takes each host's wish out of the request and chooses its target. */
  method ChooseTargets(source: Source, hosts: seq<Host>, wanted: map<int, string>)
    returns (targets: Option<map<int, string>>)
    ensures targets.Some? <==>
            Distinct(Ids(hosts)) && forall i :: 0 <= i < |hosts| ==> HostFits(source, hosts[i], wanted)
    ensures targets.Some? ==> AreTargets(hosts, wanted, targets.value)
  {
    var left := wanted;
    var chosen: map<int, string> := map[];
    ghost var ids := Ids(hosts);
    var n := 0;
    while n < |hosts|
      invariant 0 <= n <= |hosts| && Distinct(ids[..n]) && Ids(hosts[..n]) == ids[..n]
      invariant forall i :: 0 <= i < n ==> HostFits(source, hosts[i], wanted)
      invariant LeftOver(wanted, left, ids[..n])
      invariant AreTargets(hosts[..n], wanted, chosen)
    {
      var host := hosts[n];
      if host.id !in left {
        NotLeft(wanted, left, ids, n);
        assert host.id !in wanted ==> !HostFits(source, hosts[n], wanted);
        return None;
      }
      var at := TargetOf(source, host, left[host.id]);
      if at.None? {
        assert !HostFits(source, hosts[n], wanted);
        return None;
      }
      OneHostMore(hosts, n, wanted, chosen, at.value);
      TakeOneOut(wanted, left, ids, n);
      left := left - {host.id};
      chosen := chosen[host.id := host.partitions[at.value].partuuid];
      n := n + 1;
    }
    assert hosts[..n] == hosts && ids[..n] == ids;
    targets := Some(chosen);
  }

  /** Chooses the target partitions of a deployment. */
  method TargetPartitions(image: Image, hosts: seq<Host>, wanted: map<int, string>)
    returns (targets: Option<map<int, string>>)
    ensures targets.Some? <==> Plannable(image, hosts, wanted)
    ensures targets.Some? && image.kind.Disk? ==> targets.value == map[]
    ensures targets.Some? && image.kind.Partition? ==> AreTargets(hosts, wanted, targets.value)
  {
    if image.kind.Disk? {
      return if wanted != map[] then None else Some(map[]);
    }
    if exists id :: id in wanted && id !in Ids(hosts) {
      return None;
    }
    if |image.partitions| != 1 {
      return None;
    }
    targets := ChooseTargets(image.partitions[0], hosts, wanted);
  }

  lemma OneHostMore(hosts: seq<Host>, n: nat, wanted: map<int, string>, chosen: map<int, string>, at: nat)
    requires n < |hosts| && hosts[n].id in wanted && Find(hosts[n].partitions, wanted[hosts[n].id]) == Some(at)
    requires AreTargets(hosts[..n], wanted, chosen) && hosts[n].id !in Ids(hosts[..n]) && Distinct(Ids(hosts[..n]))
    ensures AreTargets(hosts[..n + 1], wanted, chosen[hosts[n].id := hosts[n].partitions[at].partuuid])
    ensures Ids(hosts[..n + 1]) == Ids(hosts[..n]) + [hosts[n].id] && Distinct(Ids(hosts[..n + 1]))
  {
    var before, after := hosts[..n], hosts[..n + 1];
    assert forall i :: 0 <= i < n ==> after[i] == before[i];
    assert Ids(after) == Ids(before) + [hosts[n].id];
    forall i | 0 <= i < n ensures after[i].id != hosts[n].id {
      assert Ids(before)[i] in Ids(before);
    }
  }

  // ----- after the image is written ----------------------------------------------------------------

  /** The target with the image's filesystem on it. */
  function Written(partitions: seq<HostPartition>, at: nat, source: Source): seq<HostPartition>
    requires at < |partitions|
  {
    partitions[at := partitions[at].(uuid := source.fsUuid, fsLabel := source.fsLabel)]
  }

  function WrittenHost(host: Host, wanted: map<int, string>, source: Source): Host
    requires HostFits(source, host, wanted)
  {
    host.(partitions := Written(host.partitions, Find(host.partitions, wanted[host.id]).value, source))
  }

  /** The partition asked for has the image's UUID and label afterwards, and nothing else has changed. */
  lemma WrittenMeans(host: Host, wanted: map<int, string>, source: Source, at: nat)
    requires HostFits(source, host, wanted) && Find(host.partitions, wanted[host.id]) == Some(at)
    ensures var after := WrittenHost(host, wanted, source);
      && after.id == host.id && after.diskUsable == host.diskUsable && |after.partitions| == |host.partitions|
      && after.partitions[at] == host.partitions[at].(uuid := source.fsUuid, fsLabel := source.fsLabel)
      && forall i :: 0 <= i < |host.partitions| && i != at ==> after.partitions[i] == host.partitions[i]
  {
  }

  /** Afterwards one partition number at most holds the image's UUID, and one at most its label. */
  lemma FilesystemStaysUnique(host: Host, wanted: map<int, string>, source: Source, i: nat, j: nat)
    requires HostFits(source, host, wanted)
    ensures var after := WrittenHost(host, wanted, source).partitions;
      i < |after| && j < |after| ==>
      && ((source.fsUuid.Some? && after[i].uuid.Some? && after[j].uuid.Some?
           && EqIgnoreCase(after[i].uuid.value, source.fsUuid.value)
           && EqIgnoreCase(after[j].uuid.value, source.fsUuid.value)) ==> after[i].number == after[j].number)
      && (source.fsLabel.Some? && after[i].fsLabel == source.fsLabel == after[j].fsLabel ==>
            after[i].number == after[j].number)
  {
    var at := Find(host.partitions, wanted[host.id]).value;
    var after := WrittenHost(host, wanted, source).partitions;
    assert forall k :: 0 <= k < |after| && k != at ==> after[k] == host.partitions[k];
    assert after[at].number == host.partitions[at].number;
  }

  lemma {:induction false} FindKeeps(before: seq<HostPartition>, after: seq<HostPartition>, partuuid: string)
    requires |before| == |after| && forall i :: 0 <= i < |before| ==> before[i].partuuid == after[i].partuuid
    ensures Find(before, partuuid) == Find(after, partuuid)
  {
    if before != [] {
      FindKeeps(before[1..], after[1..], partuuid);
    }
  }

  /** A host written once accepts the same request again, for the same target. */
  lemma WrittenHostFitsAgain(host: Host, wanted: map<int, string>, source: Source)
    requires HostFits(source, host, wanted)
    ensures HostFits(source, WrittenHost(host, wanted, source), wanted)
    ensures Find(WrittenHost(host, wanted, source).partitions, wanted[host.id]) == Find(host.partitions, wanted[host.id])
  {
    FindKeeps(host.partitions, WrittenHost(host, wanted, source).partitions, wanted[host.id]);
  }

  /** Repeating the request after the deployment succeeds with the same targets. */
  lemma RepeatingIsHarmless(image: Image, hosts: seq<Host>, wanted: map<int, string>, after: seq<Host>,
                            targets: map<int, string>)
    requires image.kind.Partition? && Plannable(image, hosts, wanted) && AreTargets(hosts, wanted, targets)
    requires |after| == |hosts|
    requires forall i :: 0 <= i < |hosts| ==> after[i] == WrittenHost(hosts[i], wanted, image.partitions[0])
    ensures Plannable(image, after, wanted) && AreTargets(after, wanted, targets)
  {
    var source := image.partitions[0];
    assert Ids(after) == Ids(hosts);
    forall i | 0 <= i < |hosts|
      ensures HostFits(source, after[i], wanted)
      ensures Find(after[i].partitions, wanted[hosts[i].id]) == Find(hosts[i].partitions, wanted[hosts[i].id])
    {
      WrittenHostFitsAgain(hosts[i], wanted, source);
    }
  }

  /** Every target chosen is large enough, is the host's own, and the map has no other hosts. */
  lemma TargetsAreTheHosts(image: Image, hosts: seq<Host>, wanted: map<int, string>, targets: map<int, string>)
    requires image.kind.Partition? && Plannable(image, hosts, wanted) && AreTargets(hosts, wanted, targets)
    ensures targets.Keys == wanted.Keys && |targets| == |hosts|
    ensures forall i :: 0 <= i < |hosts| ==> LargeEnough(hosts[i], targets[hosts[i].id], image.partitions[0])
  {
    forall i | 0 <= i < |hosts| ensures LargeEnough(hosts[i], targets[hosts[i].id], image.partitions[0]) {
      assert HostFits(image.partitions[0], hosts[i], wanted);
      var p := hosts[i].partitions[Find(hosts[i].partitions, wanted[hosts[i].id]).value];
      assert p in hosts[i].partitions;
    }
    var ids := Ids(hosts);
    forall id ensures id in targets.Keys <==> id in wanted.Keys {
      if id in ids {
        var i :| 0 <= i < |ids| && ids[i] == id;
        assert HostFits(image.partitions[0], hosts[i], wanted);
      }
    }
    DistinctCount(ids, targets.Keys);
  }

  ghost predicate LargeEnough(host: Host, partuuid: string, source: Source) {
    exists p :: p in host.partitions && p.partuuid == partuuid && p.sizeBytes >= source.sizeBytes
  }

  lemma {:induction false} DistinctCount(ids: seq<int>, elements: set<int>)
    requires Distinct(ids) && forall id :: id in elements <==> id in ids
    ensures |elements| == |ids|
  {
    if ids == [] {
      assert forall id :: id !in elements;
      assert elements == {};
    } else {
      var before, last := ids[..|ids| - 1], ids[|ids| - 1];
      assert ids == before + [last];
      assert forall id :: id in elements - {last} <==> id in before;
      DistinctCount(before, elements - {last});
    }
  }

}
