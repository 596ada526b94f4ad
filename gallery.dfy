/** The photo gallery of a product listing (frontend/src/App.jsx): the modal session that
    `ProductPageLayout` keeps and the current index that `ImageCarouselModal` moves, joined
    into one controller. The functions on `Session` specify it; the class carries it out. */
module Gallery {
  import opened Wrappers
  import opened Storefront

  /** The gallery state: whether the modal is shown, the photos it pages through and the
      index of the photo on screen. */
  datatype Session = Session(isOpen: bool, images: seq<Image>, currentIndex: int)

  /** The state before any card is clicked and after every close. */
  const Closed: Session := Session(false, [], 0)

  /** The keys the carousel listens to. */
  const ArrowRight: string := "ArrowRight"
  const ArrowLeft: string := "ArrowLeft"
  const Escape: string := "Escape"

  /** An open session always points at one of its photos. */
  predicate ValidSession(s: Session) {
    s.isOpen ==> 0 <= s.currentIndex < |s.images|
  }

  /** The photo the modal shows: `images[currentIndex]` while open, nothing while closed. */
  function CurrentImage(s: Session): (r: Option<Image>)
    requires ValidSession(s)
    ensures r.Some? <==> s.isOpen
    ensures r.Some? ==> r.value in s.images
  {
    if s.isOpen then Some(s.images[s.currentIndex]) else None
  }

  /** `nextImage`: one step forward, from the last photo back to the first. The operands are
      never negative, so JavaScript's `%` and Dafny's agree. */
  function NextIndex(i: int, n: int): (r: int)
    requires 0 <= i < n
    ensures 0 <= r < n
    ensures r == if i == n - 1 then 0 else i + 1
  {
    (i + 1) % n
  }

  /** `prevImage`: one step back, from the first photo to the last. */
  function PrevIndex(i: int, n: int): (r: int)
    requires 0 <= i < n
    ensures 0 <= r < n
    ensures r == if i == 0 then n - 1 else i - 1
  {
    (i - 1 + n) % n
  }

  /** `openModal(images, index)`: the session it installs, valid exactly when `index` is one
      of the photos' positions. */
  function OpenSession(images: seq<Image>, index: int): (r: Session)
    ensures r.isOpen && r.images == images && r.currentIndex == index
    ensures ValidSession(r) <==> 0 <= index < |images|
  {
    Session(true, images, index)
  }

  /** The session after `nextImage`: same photos, still open, index one step forward. */
  function NextSession(s: Session): (r: Session)
    requires ValidSession(s) && s.isOpen
    ensures ValidSession(r) && r.isOpen && r.images == s.images
  {
    s.(currentIndex := NextIndex(s.currentIndex, |s.images|))
  }

  /** The session after `prevImage`: same photos, still open, index one step back. */
  function PrevSession(s: Session): (r: Session)
    requires ValidSession(s) && s.isOpen
    ensures ValidSession(r) && r.isOpen && r.images == s.images
  {
    s.(currentIndex := PrevIndex(s.currentIndex, |s.images|))
  }

  /** `handleKeyDown`: the right arrow pages forward, the left arrow back, Escape closes the
      gallery; other keys, and every key while the gallery is closed (no listener is
      registered then), change nothing. */
  function Dispatch(s: Session, key: string): (r: Session)
    requires ValidSession(s)
    ensures ValidSession(r)
    ensures !s.isOpen ==> r == s
    ensures key != ArrowRight && key != ArrowLeft && key != Escape ==> r == s
    ensures s.isOpen && key == ArrowRight ==> r == NextSession(s)
    ensures s.isOpen && key == ArrowLeft ==> r == PrevSession(s)
    ensures s.isOpen && key == Escape ==> r == Closed
    ensures s.isOpen && key != Escape ==> r.isOpen && r.images == s.images
  {
    if !s.isOpen then s
    else if key == ArrowRight then NextSession(s)
    else if key == ArrowLeft then PrevSession(s)
    else if key == Escape then Closed
    else s
  }

  /** A click on a product card: the gallery opens on the product's first photo when it has
      photos; a card without photos does nothing. */
  function CardClick(s: Session, p: ProductSummary): (r: Session)
    ensures HasImages(p) ==> r.isOpen && r.images == p.images.value && r.currentIndex == 0
    ensures !HasImages(p) ==> r == s
    ensures ValidSession(s) ==> ValidSession(r)
    ensures r.isOpen && !s.isOpen ==> |r.images| > 0
  {
    if HasImages(p) then OpenSession(p.images.value, 0) else s
  }

  /** The session after a sequence of key presses. */
  function Run(s: Session, keys: seq<string>): (r: Session)
    requires ValidSession(s)
    ensures ValidSession(r)
    ensures r.isOpen ==> s.isOpen && r.images == s.images
    decreases |keys|
  {
    if keys == [] then s else Run(Dispatch(s, keys[0]), keys[1..])
  }

  /** Pressing the keys one after the other: the last key acts on the state the others left. */
  lemma {:induction false} RunSteps(s: Session, keys: seq<string>)
    requires ValidSession(s) && keys != []
    ensures Run(s, keys) == Dispatch(Run(s, keys[..|keys| - 1]), keys[|keys| - 1])
    decreases |keys|
  {
    if |keys| > 1 {
      RunSteps(Dispatch(s, keys[0]), keys[1..]);
      assert keys[1..][..|keys[1..]| - 1] == keys[..|keys| - 1][1..];
    }
  }

  /** `k` presses of the same key. */
  function Repeat(key: string, k: nat): (r: seq<string>)
    ensures |r| == k && forall i :: 0 <= i < k ==> r[i] == key
  {
    if k == 0 then [] else [key] + Repeat(key, k - 1)
  }

  /** The previous photo of the next one, and the next of the previous one, is where one was. */
  lemma NextPrevInverse(s: Session)
    requires ValidSession(s) && s.isOpen
    ensures PrevSession(NextSession(s)) == s
    ensures NextSession(PrevSession(s)) == s
  {
  }

  /** Forward from the last photo is the first; back from the first is the last. */
  lemma Wraparound(s: Session)
    requires ValidSession(s) && s.isOpen
    ensures s.currentIndex == |s.images| - 1 ==> NextSession(s).currentIndex == 0
    ensures s.currentIndex == 0 ==> PrevSession(s).currentIndex == |s.images| - 1
  {
  }

  /** Pressing right and then left, or left and then right, leaves the session as it was. */
  lemma ArrowsCancel(s: Session)
    requires ValidSession(s)
    ensures Run(s, [ArrowRight, ArrowLeft]) == s
    ensures Run(s, [ArrowLeft, ArrowRight]) == s
  {
    if s.isOpen {
      NextPrevInverse(s);
    }
    assert [ArrowRight, ArrowLeft][1..] == [ArrowLeft];
    assert Run(s, [ArrowRight, ArrowLeft]) == Run(Dispatch(s, ArrowRight), [ArrowLeft]);
    assert Run(Dispatch(s, ArrowRight), [ArrowLeft]) == Dispatch(Dispatch(s, ArrowRight), ArrowLeft);
    assert [ArrowLeft, ArrowRight][1..] == [ArrowRight];
    assert Run(s, [ArrowLeft, ArrowRight]) == Run(Dispatch(s, ArrowLeft), [ArrowRight]);
    assert Run(Dispatch(s, ArrowLeft), [ArrowRight]) == Dispatch(Dispatch(s, ArrowLeft), ArrowRight);
  }

  lemma MulSign(d: int, n: int)
    requires n > 0
    ensures d >= 1 ==> d * n >= n
    ensures d <= -1 ==> d * n <= -n
  {
  }

  /** Euclidean division has one quotient and one remainder. */
  lemma ModUnique(y: int, n: int, q: int, r: int)
    requires n > 0 && y == q * n + r && 0 <= r < n
    ensures y % n == r
  {
    var q0, r0 := y / n, y % n;
    assert y == q0 * n + r0;
    assert (q - q0) * n == q * n - q0 * n;
    MulSign(q - q0, n);
  }

  /** Adding the modulus does not change the remainder. */
  lemma AddModulus(x: int, n: int)
    requires n > 0
    ensures (x + n) % n == x % n
  {
    ModUnique(x + n, n, x / n + 1, x % n);
  }

  /** `k` presses of the right arrow advance the index by `k` modulo the number of photos. */
  lemma {:induction false} RunRight(s: Session, k: nat)
    requires ValidSession(s) && s.isOpen
    ensures Run(s, Repeat(ArrowRight, k)) == s.(currentIndex := (s.currentIndex + k) % |s.images|)
    decreases k
  {
    var n := |s.images|;
    if k == 0 {
      ModUnique(s.currentIndex, n, 0, s.currentIndex);
    } else {
      var t := NextSession(s);
      assert Repeat(ArrowRight, k)[1..] == Repeat(ArrowRight, k - 1);
      RunRight(t, k - 1);
      if s.currentIndex == n - 1 {
        AddModulus(k - 1, n);
      }
    }
  }

  /** `k` presses of the left arrow move the index back by `k` modulo the number of photos. */
  lemma {:induction false} RunLeft(s: Session, k: nat)
    requires ValidSession(s) && s.isOpen
    ensures Run(s, Repeat(ArrowLeft, k)) == s.(currentIndex := (s.currentIndex - k) % |s.images|)
    decreases k
  {
    var n := |s.images|;
    if k == 0 {
      ModUnique(s.currentIndex, n, 0, s.currentIndex);
    } else {
      var t := PrevSession(s);
      assert Repeat(ArrowLeft, k)[1..] == Repeat(ArrowLeft, k - 1);
      RunLeft(t, k - 1);
      if s.currentIndex == 0 {
        var back: int := -(k as int);
        AddModulus(back, n);
      }
    }
  }

  /** As many presses of the right arrow as there are photos come back to the starting photo. */
  lemma FullCircleRight(s: Session)
    requires ValidSession(s) && s.isOpen
    ensures Run(s, Repeat(ArrowRight, |s.images|)) == s
  {
    var n, i := |s.images|, s.currentIndex;
    RunRight(s, n);
    ModUnique(i + n, n, 1, i);
  }

  /** As many presses of the left arrow as there are photos come back to the starting photo. */
  lemma FullCircleLeft(s: Session)
    requires ValidSession(s) && s.isOpen
    ensures Run(s, Repeat(ArrowLeft, |s.images|)) == s
  {
    var n, i := |s.images|, s.currentIndex;
    RunLeft(s, n);
    ModUnique(i - n, n, -1, i);
  }

  /** Once closed, no key press shows a photo again: only a card click reopens the gallery. */
  lemma {:induction false} ClosedIgnoresKeys(keys: seq<string>)
    ensures Run(Closed, keys) == Closed
  {
    if keys != [] {
      ClosedIgnoresKeys(keys[1..]);
    }
  }

  /** Escape twice has the effect of Escape once. */
  lemma CloseIdempotent(s: Session)
    requires ValidSession(s)
    ensures Run(s, [Escape, Escape]) == Run(s, [Escape])
    ensures s.isOpen ==> Run(s, [Escape]) == Closed
  {
    assert [Escape, Escape][1..] == [Escape];
  }

  /** The photo shown first after a card click is the card's cover. */
  lemma CoverIsFirstShown(s: Session, p: ProductSummary)
    requires HasImages(p)
    ensures ValidSession(CardClick(s, p))
    ensures CurrentImage(CardClick(s, p)) == Some(p.images.value[0])
    ensures CoverImage(p) == p.images.value[0].url
  {
  }

  /** A product with photos A, B, C: the click shows A, two right arrows show C, a third
      wraps round to A, and Escape closes the gallery so that nothing is shown. */
  lemma ThreePhotoWalkthrough(s: Session, a: Image, b: Image, c: Image, id: nat, name: string)
    requires ValidSession(s)
    ensures var start := CardClick(s, ProductSummary(id, name, None, Some([a, b, c])));
      CurrentImage(start) == Some(a) &&
      CurrentImage(Run(start, [ArrowRight, ArrowRight])) == Some(c) &&
      CurrentImage(Run(start, [ArrowRight, ArrowRight, ArrowRight])) == Some(a) &&
      CurrentImage(Run(start, [ArrowRight, ArrowRight, ArrowRight, Escape])) == None
  {
    var start := CardClick(s, ProductSummary(id, name, None, Some([a, b, c])));
    var one := Dispatch(start, ArrowRight);
    var two := Dispatch(one, ArrowRight);
    var three := Dispatch(two, ArrowRight);
    assert two.currentIndex == 2 && three.currentIndex == 0;
    assert Run(start, [ArrowRight]) == Run(one, []) == one;
    RunSteps(start, [ArrowRight, ArrowRight]);
    assert [ArrowRight, ArrowRight][..1] == [ArrowRight];
    RunSteps(start, [ArrowRight, ArrowRight, ArrowRight]);
    assert [ArrowRight, ArrowRight, ArrowRight][..2] == [ArrowRight, ArrowRight];
    RunSteps(start, [ArrowRight, ArrowRight, ArrowRight, Escape]);
    assert [ArrowRight, ArrowRight, ArrowRight, Escape][..3] == [ArrowRight, ArrowRight, ArrowRight];
  }

  /** The gallery of one listing page. */
  class GalleryController {
    var isOpen: bool
    var images: seq<Image>
    var currentIndex: int

    function State(): Session
      reads this
    {
      Session(isOpen, images, currentIndex)
    }

    predicate Valid()
      reads this
    {
      ValidSession(State())
    }

    /** `useState({ isOpen: false, images: [], initialIndex: 0 })`. */
    constructor ()
      ensures State() == Closed && Valid()
    {
      isOpen, images, currentIndex := false, [], 0;
    }

    /** `openModal`: installs a new session; it is valid when the index is in range. */
    method Open(productImages: seq<Image>, index: int)
      modifies this
      ensures State() == OpenSession(productImages, index)
      ensures Valid() <==> 0 <= index < |productImages|
    {
      isOpen, images, currentIndex := true, productImages, index;
    }

    /** `closeModal`: back to the closed, empty session, whatever the state was. */
    method Close()
      modifies this
      ensures State() == Closed && Valid()
    {
      isOpen, images, currentIndex := false, [], 0;
    }

    /** `nextImage`. */
    method Next()
      requires Valid() && isOpen
      modifies this
      ensures State() == NextSession(old(State()))
    {
      currentIndex := NextIndex(currentIndex, |images|);
    }

    /** `prevImage`. */
    method Prev()
      requires Valid() && isOpen
      modifies this
      ensures State() == PrevSession(old(State()))
    {
      currentIndex := PrevIndex(currentIndex, |images|);
    }

    /** The keydown listener, present only while the gallery is open. */
    method HandleKey(key: string)
      requires Valid()
      modifies this
      ensures Valid() && State() == Dispatch(old(State()), key)
    {
      if isOpen {
        if key == ArrowRight { Next(); }
        if key == ArrowLeft { Prev(); }
        if key == Escape { Close(); }
      }
    }

    /** A click on a product card: `onImageClick(0)` runs only for a product with photos. */
    method ClickCard(p: ProductSummary)
      modifies this
      ensures State() == CardClick(old(State()), p)
    {
      if p.images.Some? && |p.images.value| > 0 {
        Open(p.images.value, 0);
      }
    }
  }

  /** The listing page's gallery through the three-photo walkthrough, driven by the
      controller's own methods. */
  method Walkthrough(a: Image, b: Image, c: Image) returns (shownAfterWrap: Option<Image>, shownAfterClose: Option<Image>)
    ensures shownAfterWrap == Some(a) && shownAfterClose == None
  {
    var gallery := new GalleryController();
    gallery.ClickCard(ProductSummary(1, "Card", None, Some([a, b, c])));
    gallery.HandleKey(ArrowRight);
    gallery.HandleKey(ArrowRight);
    assert CurrentImage(gallery.State()) == Some(c);
    gallery.HandleKey(ArrowRight);
    shownAfterWrap := CurrentImage(gallery.State());
    gallery.HandleKey(Escape);
    shownAfterClose := CurrentImage(gallery.State());
  }
}
