/** What pulling an image reports (get_image_id and pull_image of ansible/module_utils/kolla_docker_worker.py): it
    compares the local image that the name stands for before and after, but a name without a tag stands for the images
    of all its tags. */
module PullReport {
  import opened OrderedDict
  import opened ContainerSpec
  import opened DockerCompare
  import opened Host

  /** The local images that an image name without a tag stands for are those of all its tags. */
  predicate Matches(image: string, ref: Ref) {
    if Tagged(image) then ref == ParseImage(image) else ref.0 == image
  }

  function LocalIds(image: string, images: map<Ref, Image>): set<string> {
    set ref | ref in images && Matches(image, ref) :: images[ref].id
  }

  /** get_image_id is None unless there is exactly one, so two of its results differ exactly in this case. */
  predicate IdsDiffer(before: set<string>, after: set<string>) {
    (|before| == 1 || |after| == 1) && before != after
  }

  predicate PullReported(image: string, images: map<Ref, Image>, new_: Image) {
    IdsDiffer(LocalIds(image, images), LocalIds(image, images[ParseImage(image) := new_]))
  }

  /** The pulled image is another one than before. */
  predicate PullAltered(image: string, images: map<Ref, Image>, new_: Image) {
    !(ParseImage(image) in images && images[ParseImage(image)].id == new_.id)
  }

  /** All other local tags of the repository are of the very image that has the default tag. */
  predicate OthersAgree(image: string, images: map<Ref, Image>) {
    !Tagged(image) ==>
      forall ref :: ref in images && ref.0 == image && ref.1 != "latest" ==>
        (image, "latest") in images && images[ref].id == images[(image, "latest")].id
  }

  lemma TaggedIds(image: string, images: map<Ref, Image>)
    requires Tagged(image)
    ensures LocalIds(image, images) == if ParseImage(image) in images then {images[ParseImage(image)].id} else {}
  {
  }

  lemma LatestMatches(image: string)
    ensures Matches(image, ParseImage(image))
  {
  }

  /** The ids of the other tags. */
  function OtherIds(image: string, images: map<Ref, Image>): set<string> {
    set ref | ref in images && Matches(image, ref) && ref != ParseImage(image) :: images[ref].id
  }

  function LatestIds(image: string, images: map<Ref, Image>): set<string> {
    if ParseImage(image) in images then {images[ParseImage(image)].id} else {}
  }

  lemma IdsSplit(image: string, images: map<Ref, Image>)
    ensures LocalIds(image, images) == OtherIds(image, images) + LatestIds(image, images)
  {
    LatestMatches(image);
    forall id | id in LatestIds(image, images)
      ensures id in LocalIds(image, images)
    {
      assert images[ParseImage(image)].id == id;
    }
  }

  lemma PullSplit(image: string, images: map<Ref, Image>, new_: Image)
    ensures LocalIds(image, images[ParseImage(image) := new_]) == OtherIds(image, images) + {new_.id}
  {
    var after := images[ParseImage(image) := new_];
    IdsSplit(image, after);
    assert OtherIds(image, after) == OtherIds(image, images) by {
      forall id | id in OtherIds(image, images)
        ensures id in OtherIds(image, after)
      {
        var ref :| ref in images && Matches(image, ref) && ref != ParseImage(image) && images[ref].id == id;
        assert after[ref].id == id;
      }
    }
  }

  lemma AgreeMeans(image: string, images: map<Ref, Image>)
    ensures OthersAgree(image, images) <==> OtherIds(image, images) <= LatestIds(image, images)
  {
    if OtherIds(image, images) <= LatestIds(image, images) {
      forall ref | ref in images && Matches(image, ref) && ref != ParseImage(image)
        ensures ParseImage(image) in images && images[ref].id == images[ParseImage(image)].id
      {
        assert images[ref].id in OtherIds(image, images);
      }
    }
  }

  lemma TwoElements<T>(s: set<T>, a: T, b: T)
    requires a in s && b in s && a != b
    ensures |s| != 1
  {
    var rest := s - {a};
    assert b in rest && s == rest + {a};
  }

  /** An image with the given id. */
  function ImageOf(id: string): Image {
    Image(id, Empty(), Empty(), [], [], {}, map[])
  }

  /** The report is right if the other tags agree. */
  lemma ReportIsRight(image: string, images: map<Ref, Image>, new_: Image)
    requires OthersAgree(image, images)
    ensures PullReported(image, images, new_) <==> PullAltered(image, images, new_)
  {
    var others, latest := OtherIds(image, images), LatestIds(image, images);
    IdsSplit(image, images);
    PullSplit(image, images, new_);
    AgreeMeans(image, images);
    assert others + latest == latest;
    if others == {} {
      assert others + {new_.id} == {new_.id};
    }
  }

  /** An image whose pull is reported wrongly, when the other tags do not agree. */
  lemma WronglyReported(image: string, images: map<Ref, Image>) returns (new_: Image)
    requires !OthersAgree(image, images)
    ensures PullAltered(image, images, new_) && !PullReported(image, images, new_)
  {
    hide OtherIds, OthersAgree, LocalIds, ParseImage;
    var others, latest := OtherIds(image, images), LatestIds(image, images);
    IdsSplit(image, images);
    AgreeMeans(image, images);
    var o :| o in others && o !in latest;
    new_ := ImageOf(o);
    if others + latest == others {
      PullSplit(image, images, new_);
      assert others + {o} == others;
    } else {
      var l := images[ParseImage(image)].id;
      assert l in latest && o != l;
      new_ := ImageOf(o + l + "+");
      TwoElements(others + latest, o, l);
      PullSplit(image, images, new_);
      TwoElements(others + {new_.id}, o, new_.id);
    }
  }

  /** Exactly for the local images whose other tags agree is every pull reported rightly; for an image name with a tag
      that is always so. */
  lemma PullReportsAreRight(image: string, images: map<Ref, Image>)
    ensures (forall new_ :: PullReported(image, images, new_) <==> PullAltered(image, images, new_)) <==>
            OthersAgree(image, images)
    ensures Tagged(image) ==> OthersAgree(image, images)
  {
    if OthersAgree(image, images) {
      forall new_
        ensures PullReported(image, images, new_) <==> PullAltered(image, images, new_)
      {
        ReportIsRight(image, images, new_);
      }
    } else {
      var new_ := WronglyReported(image, images);
      assert !(PullReported(image, images, new_) <==> PullAltered(image, images, new_));
    }
  }
}
