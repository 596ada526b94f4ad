/** The display rules of a product card and of the footer (frontend/src/App.jsx), on the
    JSON the API serves. */
module Storefront {
  import opened Wrappers
  import opened Sequences

  /** One photo of a product as served by the API: its id and its URL (`image`). */
  datatype Image = Image(id: nat, url: string)

  /** A product as the listing receives it; `description` and `images` may be missing. */
  datatype ProductSummary = ProductSummary(
    id: nat,
    name: string,
    description: Option<string>,
    images: Option<seq<Image>>)

  /** Shown on a card whose product has no image. */
  const NoImagePlaceholder: string := "https://placehold.co/600x400/a855f7/ffffff?text=No+Image"

  /** `product.images && product.images.length > 0`. */
  predicate HasImages(p: ProductSummary)
    ensures p.images.None? ==> !HasImages(p)
    ensures HasImages(p) ==> p.images.value != []
  {
    p.images.Some? && |p.images.value| > 0
  }

  /** The card's cover: the first image when there is one, otherwise the placeholder. */
  function CoverImage(p: ProductSummary): (r: string)
    ensures HasImages(p) ==> r == p.images.value[0].url
    ensures !HasImages(p) ==> r == NoImagePlaceholder
  {
    if HasImages(p) then p.images.value[0].url else NoImagePlaceholder
  }

  /** The camera badge with the number of images, shown only for more than one image. */
  function CountBadge(p: ProductSummary): (r: Option<nat>)
    ensures r.Some? <==> p.images.Some? && |p.images.value| > 1
    ensures r.Some? ==> r.value == |p.images.value| && r.value >= 2
  {
    if p.images.Some? && |p.images.value| > 1 then Some(|p.images.value|) else None
  }

  /** A card with a badge has a real cover image, not the placeholder. */
  lemma BadgeHasCover(p: ProductSummary)
    requires CountBadge(p).Some?
    ensures HasImages(p) && CoverImage(p) == p.images.value[0].url
  {
  }

  /** Descriptions longer than this are cut to it on a card. */
  const PreviewLength: nat := 100

  /** The card's description: its first 100 characters, then "..." when it was longer;
      empty when there is none. */
  function DescriptionPreview(d: Option<string>): (r: string)
    ensures d.None? ==> r == ""
    ensures d.Some? && |d.value| <= PreviewLength ==> r == d.value
    ensures d.Some? && |d.value| > PreviewLength ==>
      |r| == PreviewLength + 3 && r[..PreviewLength] == d.value[..PreviewLength] && r[PreviewLength..] == "..."
  {
    match d
    case None => ""
    case Some(text) =>
      var cut := if |text| < PreviewLength then |text| else PreviewLength;
      text[..cut] + (if |text| > PreviewLength then "..." else "")
  }

  /** The preview never exceeds 103 characters and always starts with the description. */
  lemma DescriptionPreviewBounds(text: string)
    ensures |DescriptionPreview(Some(text))| <= PreviewLength + 3
    ensures |text| <= PreviewLength ==> |DescriptionPreview(Some(text))| == |text|
    ensures var n := if |text| < PreviewLength then |text| else PreviewLength;
      DescriptionPreview(Some(text))[..n] == text[..n]
  {
    if |text| <= PreviewLength {
      assert text[..|text|] == text;
    }
  }

  /** A character the pattern `[0-9]` matches. */
  predicate IsAsciiDigit(c: char)
    ensures IsAsciiDigit(c) <==> c in "0123456789"
  {
    '0' <= c <= '9'
  }

  /** The number in the footer's WhatsApp link: the configured number with every character
      other than 0-9 removed; empty when no number is configured. */
  function WhatsAppNumber(configured: Option<string>): (r: string)
    ensures forall i :: 0 <= i < |r| ==> IsAsciiDigit(r[i])
    ensures configured.None? ==> r == ""
  {
    var digits := Filter(IsAsciiDigit, configured.GetOr(""));
    assert forall i :: 0 <= i < |digits| ==> digits[i] in digits;
    digits
  }

  /** The digits keep their order and their number: the link number is the subsequence of
      the configured number made of all its digits. */
  lemma WhatsAppNumberKeepsDigits(configured: string)
    ensures IsSubsequence(WhatsAppNumber(Some(configured)), configured)
    ensures forall c ::
      (multiset(WhatsAppNumber(Some(configured)))[c] == if IsAsciiDigit(c) then multiset(configured)[c] else 0)
  {
    FilterIsSubsequence(IsAsciiDigit, configured);
    FilterMultiset(IsAsciiDigit, configured);
  }

  /** A number written with digits only is used as it is, and so is the filtered number. */
  lemma WhatsAppNumberOfDigits(configured: string)
    ensures (forall i :: 0 <= i < |configured| ==> IsAsciiDigit(configured[i])) ==>
      WhatsAppNumber(Some(configured)) == configured
    ensures WhatsAppNumber(Some(WhatsAppNumber(Some(configured)))) == WhatsAppNumber(Some(configured))
  {
    if forall i :: 0 <= i < |configured| ==> IsAsciiDigit(configured[i]) {
      FilterKeepsAll(IsAsciiDigit, configured);
    }
    FilterIdempotent(IsAsciiDigit, configured);
  }

  /** Separators between groups of digits do not matter. */
  lemma WhatsAppNumberConcat(a: string, b: string)
    ensures WhatsAppNumber(Some(a + b)) == WhatsAppNumber(Some(a)) + WhatsAppNumber(Some(b))
  {
    FilterConcat(IsAsciiDigit, a, b);
  }
}
