/**
 Why dropping repeats needs versions in a strict order: where versionLess has a
 gap, some evidence gives another version without its repeats.
 */
module AddOnOrder {
  import opened Repeats
  import opened AddOnMatch

  /** A registry of one entry, every image of which carries its own version. */
  function PlainRules(less: Less): Rules {
    Rules(image => [Claim("a", image, false)], _ => false, _ => false, image => image, _ => false,
          (_, _) => false, _ => LabelledAs("", ""), _ => [], _ => [], _ => [], v => v, v => v, v => v,
          _ => [], _ => true, v => v, less)
  }

  const AT := Install("a", "n")

  function ImagesOf(vs: seq<string>): seq<NsImage> {
    if vs == [] then [] else ImagesOf(vs[..|vs| - 1]) + [NsImage("n", vs[|vs| - 1])]
  }

  function EvsOf(vs: seq<string>): seq<Ev> {
    if vs == [] then [] else EvsOf(vs[..|vs| - 1]) + [Ev(ImageSource, vs[|vs| - 1], "")]
  }

  function PlainEvidence(images: seq<NsImage>): Evidence {
    Evidence(images, [], [], [], [])
  }

  lemma {:induction false} PlainFiling(less: Less, v: string)
    ensures ImageFilingsOf(PlainRules(less), [], [], NsImage("n", v)) == [(AT, Ev(ImageSource, v, ""))]
  {
    assert Settled(PlainRules(less), [], [], NsImage("n", v)) == [Claim("a", v, false)];
  }

  lemma {:induction false} PlainLog(less: Less, vs: seq<string>)
    ensures Under(AT, ImageLog(PlainRules(less), [], [], ImagesOf(vs))) == EvsOf(vs)
  {
    if vs != [] {
      var init, last := vs[..|vs| - 1], vs[|vs| - 1];
      PlainLog(less, init);
      PlainFiling(less, last);
      FlatMapSnoc(ImageFilings(PlainRules(less), [], []), ImagesOf(init), NsImage("n", last));
      UnderSnoc(AT, ImageLog(PlainRules(less), [], [], ImagesOf(init)), (AT, Ev(ImageSource, last, "")));
    }
  }

  lemma {:induction false} WholeLog(less: Less, vs: seq<string>)
    ensures Log(PlainRules(less), PlainEvidence(ImagesOf(vs))) == ImageLog(PlainRules(less), [], [], ImagesOf(vs))
  {
  }

  lemma {:induction false} AllImages(vs: seq<string>, e: Ev)
    requires e in EvsOf(vs)
    ensures e.source.ImageSource?
  {
    if e != Ev(ImageSource, vs[|vs| - 1], "") {
      AllImages(vs[..|vs| - 1], e);
    }
  }

  lemma {:induction false} KeepsAll(less: Less, evs: seq<Ev>)
    ensures FlatMap(Keep(PlainRules(less), {}, false), evs) == evs
  {
    if evs != [] {
      KeepsAll(less, evs[..|evs| - 1]);
      assert evs == evs[..|evs| - 1] + [evs[|evs| - 1]];
    }
  }

  lemma {:induction false} OldestImage(less: Less, vs: seq<string>)
    ensures Oldest(less, AppVersionOf, EvsOf(vs)) == ""
    ensures Oldest(less, PodVersionOf, EvsOf(vs)) == Oldest(less, Itself, vs)
  {
    if vs != [] {
      var init, last := vs[..|vs| - 1], vs[|vs| - 1];
      OldestImage(less, init);
      assert EvsOf(vs)[..|EvsOf(vs)| - 1] == EvsOf(init);
    }
  }

  /** The install's version is the oldest its images carry. */
  lemma {:induction false} FoundIsOldest(less: Less, vs: seq<string>)
    requires vs != []
    ensures var found := Found(PlainRules(less), PlainEvidence(ImagesOf(vs)), AT);
            found != [] && found[0].version == Oldest(less, Itself, vs)
  {
    var rules, evs := PlainRules(less), EvsOf(vs);
    WholeLog(less, vs);
    PlainLog(less, vs);
    forall e | e in evs
      ensures !e.source.ChartSource?
    {
      AllImages(vs, e);
    }
    assert Lines(rules, evs) == {};
    KeepsAll(less, evs);
    OldestImage(less, vs);
  }

  lemma {:induction false} ImageIn(vs: seq<string>, v: string)
    ensures NsImage("n", v) in ImagesOf(vs) <==> v in vs
  {
    if vs != [] {
      ImageIn(vs[..|vs| - 1], v);
      assert vs == vs[..|vs| - 1] + [vs[|vs| - 1]];
    }
  }

  lemma {:induction false} FirstsOfImages(vs: seq<string>)
    ensures Firsts(ImagesOf(vs)) == ImagesOf(Firsts(vs))
  {
    if vs != [] {
      var init, last := vs[..|vs| - 1], vs[|vs| - 1];
      FirstsOfImages(init);
      ImageIn(init, last);
      FirstsSnoc(ImagesOf(init), NsImage("n", last));
      assert vs == init + [last];
      assert last !in init ==> Firsts(vs)[..|Firsts(vs)| - 1] == Firsts(init);
    }
  }

  /** With a gap in the order there is a registry, and evidence, whose outcome
      changes when a repeated image is dropped. */
  lemma {:induction false} OrderIsNeeded(less: Less, x: string, y: string, z: string)
    requires x != "" && y != "" && z != "" && !less(x, x) && !less(y, y) && !less(z, z)
    requires less(x, y) && less(y, z) && !less(x, z)
    ensures var images := ImagesOf([z] + [x] + [y] + [x]);
            !SameOutcome(PlainRules(less), PlainEvidence(images), PlainEvidence(Firsts(images)))
  {
    var vs := [z] + [x] + [y] + [x];
    RepeatCounts(less, x, y, z);
    FirstsOfImages(vs);
    FoundIsOldest(less, vs);
    assert z in Firsts(vs);
    FoundIsOldest(less, Firsts(vs));
    assert Found(PlainRules(less), PlainEvidence(ImagesOf(vs)), AT) !=
           Found(PlainRules(less), PlainEvidence(ImagesOf(Firsts(vs))), AT);
  }
}
