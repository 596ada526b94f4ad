/** The database records of the catalogue backend and the behaviour attached to them
    (backend/app/models.py). A table is a sequence of rows in primary-key order. */
module Models {
  import opened Wrappers

  /** Default of `SiteConfiguration.site_name`. */
  const DefaultSiteName: string := "Zaujain Nikah Point"

  /** The single site-wide settings row. `logo` is a nullable file path; the other text
      fields default to blank. */
  datatype SiteConfiguration = SiteConfiguration(
    id: nat,
    siteName: string,
    logo: Option<string>,
    phoneNumber: string,
    whatsappNumber: string,
    facebookLink: string,
    instagramLink: string)

  /** The row `SiteConfiguration.objects.create()` inserts: every field at its default. */
  function DefaultConfiguration(id: nat): (c: SiteConfiguration)
    ensures c.id == id && c.siteName == DefaultSiteName && c.logo == None
    ensures c.phoneNumber == "" && c.whatsappNumber == "" && c.facebookLink == "" && c.instagramLink == ""
  {
    SiteConfiguration(id, DefaultSiteName, None, "", "", "", "")
  }

  /** A product category whose `save` fills in a blank slug before the row is written. */
  class Category {
    var name: string
    var slug: string

    constructor (name: string, slug: string)
      ensures this.name == name && this.slug == slug
    {
      this.name := name;
      this.slug := slug;
    }

    /** `Category.save`: a blank slug becomes `slugify(name)`; a given slug is kept.
        `slugify` is the framework's slug function, taken as an arbitrary function. */
    method Save(slugify: string -> string)
      modifies this
      ensures name == old(name)
      ensures slug == SavedSlug(old(slug), name, slugify)
    {
      if slug == "" {
        slug := slugify(name);
      }
    }
  }

  /** The slug a category has after `save`. */
  function SavedSlug(slug: string, name: string, slugify: string -> string): (r: string)
    ensures slug != "" ==> r == slug
    ensures slug == "" ==> r == slugify(name)
  {
    if slug == "" then slugify(name) else slug
  }

  /** Saving a category a second time does not change its slug again. */
  lemma SaveIdempotent(slug: string, name: string, slugify: string -> string)
    ensures SavedSlug(SavedSlug(slug, name, slugify), name, slugify) == SavedSlug(slug, name, slugify)
  {
  }

  /** One uploaded photo of a product; `url` is the stored file's URL. */
  datatype ProductImage = ProductImage(id: nat, url: string)

  /** A product row with its category's slug (the join `category__slug` filters on) and its
      images in primary-key order. `createdAt` is the creation timestamp. */
  datatype Product = Product(
    id: nat,
    name: string,
    description: string,
    categorySlug: string,
    isFeatured: bool,
    createdAt: int,
    images: seq<ProductImage>)

  /** `Product.get_cover_image`: the URL of the first image, or `None` without images. */
  function GetCoverImage(p: Product): (r: Option<string>)
    ensures r == None <==> |p.images| == 0
    ensures r.Some? ==> r.value == p.images[0].url
  {
    if |p.images| > 0 then Some(p.images[0].url) else None
  }

  /** `Meta.ordering = ['-created_at']`: newest product first. */
  ghost predicate NewestFirst(s: seq<Product>)
    ensures NewestFirst(s) ==> forall i :: 0 <= i < |s| - 1 ==> s[i].createdAt >= s[i + 1].createdAt
  {
    forall i, j :: 0 <= i < j < |s| ==> s[i].createdAt >= s[j].createdAt
  }

  /** Inserts `p` into a newest-first sequence before the first product not newer than it. */
  function InsertByNewest(p: Product, s: seq<Product>): (r: seq<Product>)
    requires NewestFirst(s)
    ensures NewestFirst(r)
    ensures multiset(r) == multiset(s) + multiset{p}
    ensures |r| == |s| + 1
    ensures r[0] == p || (s != [] && r[0] == s[0])
  {
    if s == [] || p.createdAt >= s[0].createdAt then [p] + s
    else
      assert s == [s[0]] + s[1..];
      [s[0]] + InsertByNewest(p, s[1..])
  }

  /** The products of a table in the model's default order, newest first. Django leaves the
      order of products with equal `created_at` to the database; this one keeps table order. */
  function OrderedByNewest(table: seq<Product>): (r: seq<Product>)
    ensures NewestFirst(r)
    ensures multiset(r) == multiset(table)
  {
    if table == [] then []
    else
      assert table == [table[0]] + table[1..];
      InsertByNewest(table[0], OrderedByNewest(table[1..]))
  }
}
