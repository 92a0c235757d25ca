/**
 * The site-image editor of src/components/admin/SiteImagesManager.tsx: moving an image one
 * place up or down, adding one from the title and URL boxes, removing one, and replacing
 * the profile image after an upload. React state setters become returned values; the
 * clock and the random id suffix are parameters.
 */
module SiteImages {
  import opened Seqs
  import opened Text
  import opened SiteSettings

  datatype Direction = Up | Down

  /** The position `moveSiteImage` aims for. */
  function Target(index: int, direction: Direction): int {
    if direction == Up then index - 1 else index + 1
  }

  /**
   * `moveSiteImage`: on a copy, `splice` the image out and back in at the target. A target
   * outside the list leaves it as it is; otherwise the image and its neighbour trade places.
   */
  method MoveSiteImage(images: seq<SiteImage>, index: nat, direction: Direction) returns (updated: seq<SiteImage>)
    requires index < |images|
    ensures var t := Target(index, direction);
      && (t < 0 || t >= |images| ==> updated == images)
      && (0 <= t < |images| ==> updated == images[index := images[t]][t := images[index]])
    ensures multiset(updated) == multiset(images)
  {
    var target := Target(index, direction);
    if target < 0 || target >= |images| {
      return images;
    }
    updated := images;
    var moved := updated[index];
    updated := updated[..index] + updated[index + 1..];
    updated := updated[..target] + [moved] + updated[target..];
    SwapAdjacent(images, index, target, updated);
  }

  /** Taking out the image at `index` and putting it back at a neighbouring `t` swaps the two. */
  lemma SwapAdjacent(images: seq<SiteImage>, index: nat, t: nat, updated: seq<SiteImage>)
    requires index < |images| && t < |images| && (t == index - 1 || t == index + 1)
    requires var rest := images[..index] + images[index + 1..];
      updated == rest[..t] + [images[index]] + rest[t..]
    ensures updated == images[index := images[t]][t := images[index]]
    ensures multiset(updated) == multiset(images)
  {
    var lo := if t < index then t else index;
    var a, b := images[..lo], images[lo + 2..];
    assert images == a + [images[lo], images[lo + 1]] + b;
    if t == index + 1 {
      MoveDown(a, images[lo], images[lo + 1], b);
    } else {
      MoveUp(a, images[lo], images[lo + 1], b);
    }
    assert images[index := images[t]][t := images[index]] == a + [images[lo + 1], images[lo]] + b;
    assert multiset(a + [images[lo + 1], images[lo]] + b) == multiset(images) by {
      assert multiset([images[lo + 1], images[lo]]) == multiset([images[lo], images[lo + 1]]);
    }
  }

  /** Moving `x` one place down past `y`. */
  lemma MoveDown(a: seq<SiteImage>, x: SiteImage, y: SiteImage, b: seq<SiteImage>)
    ensures var s := a + [x, y] + b; var i := |a|;
      var rest := s[..i] + s[i + 1..];
      rest[..i + 1] + [x] + rest[i + 1..] == a + [y, x] + b
  {
    var s := a + [x, y] + b;
    var i := |a|;
    var rest := s[..i] + s[i + 1..];
    assert rest == a + [y] + b;
    assert rest[..i + 1] == a + [y];
    assert rest[i + 1..] == b;
  }

  /** Moving `y` one place up past `x`. */
  lemma MoveUp(a: seq<SiteImage>, x: SiteImage, y: SiteImage, b: seq<SiteImage>)
    ensures var s := a + [x, y] + b; var i := |a| + 1;
      var rest := s[..i] + s[i + 1..];
      rest[..i - 1] + [y] + rest[i - 1..] == a + [y, x] + b
  {
    var s := a + [x, y] + b;
    var i := |a| + 1;
    var rest := s[..i] + s[i + 1..];
    assert rest == a + [x] + b;
    assert rest[..i - 1] == a;
    assert rest[i - 1..] == [x] + b;
  }

  /** The title and URL boxes with the list being edited. */
  datatype Editor = Editor(images: seq<SiteImage>, newTitle: string, newUrl: string)

  /** `img-${Date.now()}-${suffix}`. */
  function ImageId(now: nat, suffix: string): string {
    "img-" + Stamp(now, suffix)
  }

  /** `handleAddSiteImage`: with a non-empty trimmed title and URL, one image is appended and the boxes cleared. */
  function AddSiteImage(e: Editor, now: nat, suffix: string): (r: Editor)
    ensures Trim(e.newTitle) == "" || Trim(e.newUrl) == "" ==> r == e
    ensures Trim(e.newTitle) != "" && Trim(e.newUrl) != "" ==>
      && r.newTitle == "" && r.newUrl == ""
      && |r.images| == |e.images| + 1 && r.images[..|e.images|] == e.images
      && r.images[|e.images|] == SiteImage(ImageId(now, suffix), Trim(e.newTitle), Trim(e.newUrl))
  {
    var title := Trim(e.newTitle);
    var url := Trim(e.newUrl);
    if title == "" || url == "" then e
    else Editor(e.images + [SiteImage(ImageId(now, suffix), title, url)], "", "")
  }

  /** After an add, pressing add again with the cleared boxes does nothing. */
  lemma AddSiteImageTwice(e: Editor, now: nat, suffix: string, later: nat, suffix': string)
    ensures var once := AddSiteImage(e, now, suffix);
      once != e ==> AddSiteImage(once, later, suffix') == once
  {
    assert Trim("") == "";
  }

  function OtherThan(id: string): SiteImage -> bool {
    (img: SiteImage) => img.id != id
  }

  /** `handleRemoveSiteImage`: drops every image with the id and keeps the rest in order. */
  function RemoveSiteImage(images: seq<SiteImage>, id: string): (r: seq<SiteImage>)
    ensures forall img :: img in r <==> img in images && img.id != id
    ensures (forall i :: 0 <= i < |images| ==> images[i].id != id) ==> r == images
    ensures |images| == 1 ==> r == if images[0].id == id then [] else images
  {
    FilterMembers(images, OtherThan(id));
    var r := Filter(images, OtherThan(id));
    assert |images| == 1 ==> images == [] + [images[0]];
    assert (forall i :: 0 <= i < |images| ==> images[i].id != id) ==> r == images by {
      if forall i :: 0 <= i < |images| ==> images[i].id != id {
        FilterAll(images, OtherThan(id));
      }
    }
    r
  }

  /** Removing distributes over concatenation: the images that stay keep their order and their copies. */
  lemma RemoveSiteImageConcat(a: seq<SiteImage>, b: seq<SiteImage>, id: string)
    ensures RemoveSiteImage(a + b, id) == RemoveSiteImage(a, id) + RemoveSiteImage(b, id)
  {
    FilterConcat(a, b, OtherThan(id));
  }

  /** The profile image after an upload: replaced only when the upload returned a URL. */
  function ProfileAfterUpload(current: string, url: string): (r: string)
    ensures url != "" ==> r == url
    ensures url == "" ==> r == current
  {
    if url != "" then url else current
  }
}
