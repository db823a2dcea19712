/** PodPassCache, and the pod-list part of collectAddOnsFrom that uses it. */
module PodPassCache {
  import opened Repeats
  import opened AddOnMatch
  import opened PodPass
  import opened VolumeTally

  lemma {:induction false} OutsideUses(us: seq<(string, string)>)
    ensures forall x: (string, string) ::
              multiset(FlatMap(Outside(UseNs), us))[x] == if x.1 == SYSTEM then 0 else multiset(us)[x]
  {
    if us != [] {
      var init, last := us[..|us| - 1], us[|us| - 1];
      OutsideUses(init);
      assert us == init + [last];
      FlatMapSnoc(Outside(UseNs), init, last);
      if last.1 == SYSTEM {
        assert FlatMap(Outside(UseNs), init) + [] == FlatMap(Outside(UseNs), init);
      }
    }
  }

  /** An age in whole seconds, at least 1. */
  function AgeSeconds(age: int): (r: int)
    ensures r >= 1 && (age < SECOND ==> r == 1) && (age >= SECOND ==> r * SECOND <= age < (r + 1) * SECOND)
  {
    if age / SECOND < 1 then 1 else age / SECOND
  }

  class Cache {
    const every: int
    const maxAge: int
    var have: bool
    var at: int
    var since: nat
    var sig: string
    var images: seq<NsImage>
    var labels: seq<Pod>
    var volumes: Tally
    ghost var uses: seq<(string, string)>

    ghost predicate Valid()
      reads this
    {
      Tallies(volumes, multiset(uses))
    }

    ghost function Held(): Held
      reads this
    {
      if have then Pass(at, since, sig, PodEvidence(images, labels, uses)) else NoPass
    }

    ghost function Settings(): Config {
      Config(every, maxAge)
    }

    constructor (every: int, maxAge: int)
      ensures Valid() && Held() == NoPass && Settings() == Config(every, maxAge)
    {
      this.every, this.maxAge := every, maxAge;
      have, at, since, sig, images, labels, volumes, uses := false, 0, 0, "", [], [], map[], [];
    }

    /** Whether to reuse the held pass, counting a reuse, and the pass's age. */
    method Reuse(now: int, sig: string) returns (ok: bool, ageSeconds: int)
      requires Valid()
      modifies this
      ensures Valid() && ok == CanReuse(Settings(), old(Held()), now, sig)
      ensures Held() == if ok then old(Held()).(since := old(Held()).since + 1) else old(Held())
      ensures ageSeconds == if ok then AgeSeconds(Since(now, old(Held()).at)) else 0
    {
      if every <= 1 || !have || sig != this.sig {
        return false, 0;
      }
      var age := Since(now, at);
      if since + 1 >= every || (maxAge > 0 && age >= maxAge) {
        return false, 0;
      }
      since := since + 1;
      return true, AgeSeconds(age);
    }

    method Forget()
      modifies this
      ensures Valid() && Held() == NoPass && since == 0
    {
      have, at, since, sig, images, labels, volumes, uses := false, 0, 0, "", [], [], map[], [];
    }

    /** Keeps the distinct images and labelled pods, and the volume counts,
        outside kube-system. */
    method Record(images: seq<NsImage>, labelled: seq<Pod>, volumes: Tally, ghost uses: seq<(string, string)>,
                  start: int, sig: string)
      requires Valid() && Tallies(volumes, multiset(uses))
      modifies this
      ensures Valid()
      ensures Held() == if every > 1 then Pass(start, 0, sig, Kept(PodEvidence(images, labelled, uses))) else old(Held())
    {
      if every <= 1 {
        return;
      }
      Forget();
      this.images, labels, this.volumes := Distill(images, labelled, volumes, uses);
      this.uses := Kept(PodEvidence(images, labelled, uses)).uses;
      have, at, this.sig := true, start, sig;
    }

    /** Lists the pods, dropping the held pass first and keeping a complete one. */
    method ListPass(ghost t: Tick, pods: seq<PodRead>, start: int, sig: string, sysRead: bool, sysImages: seq<NsImage>,
                    sysLabelled: seq<Pod>, sysVolumes: Tally, anyPage: bool, complete: bool)
      returns (images: seq<NsImage>, labelled: seq<Pod>, volumes: Tally)
      requires t.start == start && t.sig == sig && t.sysRead == sysRead && t.sys.images == sysImages
      requires t.sys.labelled == sysLabelled && t.pods == pods && t.anyPage == anyPage && t.complete == complete
      requires Tallies(sysVolumes, multiset(t.sys.uses))
      modifies this
      ensures Valid() && PodEvidence(images, labelled, Fresh(t).uses) == Fresh(t)
      ensures Tallies(volumes, multiset(Fresh(t).uses))
      ensures Held() == if complete && every > 1 then Pass(start, 0, sig, Kept(Fresh(t))) else NoPass
    {
      Forget();
      if !complete && !anyPage {
        return [], [], map[];
      }
      if sysRead {
        images, labelled, volumes := ListPods(pods, true, sysImages, sysLabelled, sysVolumes, t.sys.uses, Fresh(t));
      } else {
        assert Join(NOTHING, EvidenceOf(pods)) == EvidenceOf(pods);
        images, labelled, volumes := ListPods(pods, false, [], [], map[], [], Fresh(t));
      }
      if complete {
        Record(images, labelled, volumes, Fresh(t).uses, start, sig);
      }
    }

    /** The pod part of a collection: reuses the held pass or lists the pods. */
    method Collect(now: int, start: int, sig: string, sysRead: bool, sysImages: seq<NsImage>, sysLabelled: seq<Pod>,
                   sysVolumes: Tally, ghost sysUses: seq<(string, string)>, pods: seq<PodRead>, anyPage: bool,
                   complete: bool, ghost t: Tick)
      returns (images: seq<NsImage>, labelled: seq<Pod>, volumes: Tally, ageSeconds: int)
      requires Valid() && Tallies(sysVolumes, multiset(sysUses))
      requires t == Tick(now, start, sig, sysRead, PodEvidence(sysImages, sysLabelled, sysUses), pods, anyPage, complete)
      modifies this
      ensures Valid() && Held() == Next(Settings(), old(Held()), t)
      ensures images == Read(Settings(), old(Held()), t).images
      ensures labelled == Read(Settings(), old(Held()), t).labelled
      ensures Tallies(volumes, multiset(Read(Settings(), old(Held()), t).uses))
      ensures ageSeconds != 0 <==> Reuses(Settings(), old(Held()), t)
      ensures ageSeconds != 0 ==> ageSeconds == AgeSeconds(Since(now, old(Held()).at))
    {
      ageSeconds := 0;
      var ok := false;
      if sysRead {
        ok, ageSeconds := Reuse(now, sig);
      }
      if ok {
        images, labelled := sysImages + this.images, sysLabelled + labels;
        volumes := Merge(sysVolumes, this.volumes, multiset(sysUses), multiset(uses));
      } else {
        ageSeconds := 0;
        images, labelled, volumes := ListPass(t, pods, start, sig, sysRead, sysImages, sysLabelled, sysVolumes, anyPage, complete);
      }
    }
  }

  method DistinctImages(images: seq<NsImage>) returns (r: seq<NsImage>)
    ensures r == Firsts(FlatMap(Outside(ImageNs), images))
  {
    r := [];
    var seen: set<NsImage> := {};
    ghost var out := [];
    for i := 0 to |images|
      invariant out == FlatMap(Outside(ImageNs), images[..i])
      invariant r == Firsts(out) && forall x :: x in seen <==> x in out
    {
      var img := images[i];
      OutsideNext(ImageNs, images, i);
      if img.ns != SYSTEM {
        FirstsSnoc(out, img);
        if img !in seen {
          seen := seen + {img};
          r := r + [img];
        }
        out := out + [img];
      }
    }
    assert images[..|images|] == images;
  }

  method DistinctPods(key: Pod -> string, pods: seq<Pod>) returns (r: seq<Pod>)
    ensures r == FirstsBy(key, FlatMap(Outside(PodNs), pods))
  {
    r := [];
    var seen: set<string> := {};
    ghost var out := [];
    for i := 0 to |pods|
      invariant out == FlatMap(Outside(PodNs), pods[..i])
      invariant r == FirstsBy(key, out) && seen == Keys(key, out)
    {
      var p := pods[i];
      OutsideNext(PodNs, pods, i);
      if p.ns != SYSTEM {
        FirstsBySnoc(key, out, p);
        out := out + [p];
        if key(p) !in seen {
          seen := seen + {key(p)};
          r := r + [p];
        }
      }
    }
    assert pods[..|pods|] == pods;
  }

  /** What a pass keeps of its evidence. */
  method Distill(images: seq<NsImage>, labelled: seq<Pod>, volumes: Tally, ghost uses: seq<(string, string)>)
    returns (keptImages: seq<NsImage>, keptPods: seq<Pod>, keptVolumes: Tally)
    requires Tallies(volumes, multiset(uses))
    ensures keptImages == Kept(PodEvidence(images, labelled, uses)).images
    ensures keptPods == Kept(PodEvidence(images, labelled, uses)).labelled
    ensures Tallies(keptVolumes, multiset(Kept(PodEvidence(images, labelled, uses)).uses))
  {
    keptImages := DistinctImages(images);
    keptPods := DistinctPods(Key, labelled);
    OutsideUses(uses);
    keptVolumes := Without(volumes, SYSTEM, multiset(uses), multiset(FlatMap(Outside(UseNs), uses)));
  }

  /** The pods a list adds: all of them, or those outside kube-system. */
  function Listed(pods: seq<PodRead>, sysRead: bool): seq<PodRead> {
    if sysRead then OutsidePods(pods) else pods
  }

  lemma {:induction false} ListedSnoc(pods: seq<PodRead>, i: nat, sysRead: bool)
    requires i < |pods|
    ensures Listed(pods[..i + 1], sysRead) ==
            if sysRead && pods[i].ns == SYSTEM then Listed(pods[..i], sysRead) else Listed(pods[..i], sysRead) + [pods[i]]
  {
    assert pods[..i + 1] == pods[..i] + [pods[i]];
    FlatMapSnoc(Outside(ReadNs), pods[..i], pods[i]);
  }

  lemma {:induction false} JoinSnoc(sys: PodEvidence, pods: seq<PodRead>, p: PodRead)
    ensures var before := Join(sys, EvidenceOf(pods));
            Join(sys, EvidenceOf(pods + [p])) ==
            PodEvidence(before.images + ImagesOf(p), before.labelled + LabelledOf(p), before.uses + UsesOf(p))
  {
    FlatMapSnoc(ImagesOf, pods, p);
    FlatMapSnoc(LabelledOf, pods, p);
    FlatMapSnoc(UsesOf, pods, p);
  }

  /** Adds the listed pods to what kube-system's list gave. */
  method ListPods(pods: seq<PodRead>, sysRead: bool, sysImages: seq<NsImage>, sysLabelled: seq<Pod>, sysVolumes: Tally,
                  ghost sysUses: seq<(string, string)>, ghost all: PodEvidence)
    returns (images: seq<NsImage>, labelled: seq<Pod>, volumes: Tally)
    requires Tallies(sysVolumes, multiset(sysUses))
    requires all == Join(PodEvidence(sysImages, sysLabelled, sysUses), EvidenceOf(Listed(pods, sysRead)))
    ensures images == all.images && labelled == all.labelled && Tallies(volumes, multiset(all.uses))
  {
    images, labelled, volumes := sysImages, sysLabelled, sysVolumes;
    ghost var sys, ev := PodEvidence(sysImages, sysLabelled, sysUses), PodEvidence(sysImages, sysLabelled, sysUses);
    assert Join(sys, EvidenceOf([])) == sys;
    for i := 0 to |pods|
      invariant ev == Join(sys, EvidenceOf(Listed(pods[..i], sysRead)))
      invariant images == ev.images && labelled == ev.labelled && Tallies(volumes, multiset(ev.uses))
    {
      var p := pods[i];
      ListedSnoc(pods, i, sysRead);
      if !(sysRead && p.ns == SYSTEM) {
        JoinSnoc(sys, Listed(pods[..i], sysRead), p);
        images := images + ImagesOf(p);
        if p.labels != NO_LABELS {
          labelled := labelled + [Pod(p.ns, p.labels, p.images)];
        }
        volumes := AddPod(volumes, p.plugins, p.ns, multiset(ev.uses));
        ev := PodEvidence(ev.images + ImagesOf(p), ev.labelled + LabelledOf(p), ev.uses + UsesOf(p));
      }
    }
    assert pods[..|pods|] == pods;
  }
}
