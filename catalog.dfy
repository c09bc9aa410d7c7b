/**
  The catalog loader: turning the rows of the remote product table, whose
  fields may each be missing, into strictly typed products, and the sorted
  list of their categories.
 */
module Catalog {
  import opened Wrappers
  import StringOrder

  /** A product as the storefront uses it; prices are whole dirhams. */
  datatype Product = Product(
    id: string,
    nom: string,
    prix: int,
    image: string,
    disponibilite: string,
    categorie: string)

  /** One attachment of a row's `image` field. */
  datatype Attachment = Attachment(url: Option<string>)

  /** A row of the table as the store returns it: every field but the id may be absent. */
  datatype RawRecord = RawRecord(
    id: string,
    nom: Option<string>,
    prix: Option<int>,
    image: Option<seq<Attachment>>,
    disponibilite: Option<string>,
    categorie: Option<string>)

  /** The outcome of the remote query: the rows, or a failure of any kind. */
  datatype FetchOutcome = Fetched(records: seq<RawRecord>) | FetchFailed

  const DefaultAvailability: string := "Disponible"
  const DefaultCategory: string := "Autre"

  /** A text field read with a fallback: the field's value when it is present and non-empty, the fallback otherwise. */
  function TextOr(field: Option<string>, fallback: string): (r: string)
    ensures field.Some? && field.value != "" ==> r == field.value
    ensures field.None? || field.value == "" ==> r == fallback
    ensures r == fallback || field == Some(r)
    ensures r == "" ==> fallback == ""
  {
    if field.Some? && field.value != "" then field.value else fallback
  }

  /** A number field read with 0 as the fallback for a missing or zero value. */
  function NumberOrZero(field: Option<int>): (r: int)
    ensures r == field.GetOr(0)
  {
    if field.Some? && field.value != 0 then field.value else 0
  }

  /** The url of the first attachment of the image field, or the empty string when there is none. */
  function FirstImageUrl(image: Option<seq<Attachment>>): (r: string)
    ensures r != "" ==> image.Some? && |image.value| > 0 && image.value[0].url == Some(r)
    ensures image.Some? && |image.value| > 0 && image.value[0].url.Some? ==> r == image.value[0].url.value
    ensures image.None? || |image.value| == 0 || image.value[0].url.None? ==> r == ""
  {
    if image.Some? && |image.value| > 0 && image.value[0].url.Some? then
      image.value[0].url.value
    else ""
  }

  /** The mapping applied to each row. */
  function Normalise(rec: RawRecord): (p: Product)
    ensures p.id == rec.id
    ensures p.nom == rec.nom.GetOr("")
    ensures p.prix == rec.prix.GetOr(0)
    ensures p.image == FirstImageUrl(rec.image)
    ensures p.disponibilite != "" && p.categorie != ""
    ensures p.disponibilite == DefaultAvailability || rec.disponibilite == Some(p.disponibilite)
    ensures p.categorie == DefaultCategory || rec.categorie == Some(p.categorie)
  {
    Product(
      rec.id,
      TextOr(rec.nom, ""),
      NumberOrZero(rec.prix),
      FirstImageUrl(rec.image),
      TextOr(rec.disponibilite, DefaultAvailability),
      TextOr(rec.categorie, DefaultCategory))
  }

  /** A product shows the default availability exactly when the row's is missing, empty or that default. */
  lemma AvailabilityDefault(rec: RawRecord)
    ensures Normalise(rec).disponibilite == DefaultAvailability
        <==> rec.disponibilite.None? || rec.disponibilite.value in {"", DefaultAvailability}
  {
  }

  /** A product shows the default category exactly when the row's is missing, empty or that default. */
  lemma CategoryDefault(rec: RawRecord)
    ensures Normalise(rec).categorie == DefaultCategory
        <==> rec.categorie.None? || rec.categorie.value in {"", DefaultCategory}
  {
  }

  /** Every row normalised: one product per row, in row order. */
  function NormaliseAll(records: seq<RawRecord>): (ps: seq<Product>)
    ensures |ps| == |records|
    ensures forall i :: 0 <= i < |ps| ==> ps[i] == Normalise(records[i])
  {
    if records == [] then [] else [Normalise(records[0])] + NormaliseAll(records[1..])
  }

  /** The loaded catalog: the normalised rows, or no products at all when the query fails. */
  function GetProducts(outcome: FetchOutcome): (ps: seq<Product>)
    ensures outcome.FetchFailed? ==> ps == []
    ensures outcome.Fetched? ==> ps == NormaliseAll(outcome.records)
    ensures outcome.Fetched? ==> |ps| == |outcome.records|
    ensures outcome.Fetched? ==> forall i :: 0 <= i < |ps| ==> ps[i].id == outcome.records[i].id
    ensures forall i :: 0 <= i < |ps| ==> ps[i].categorie != "" && ps[i].disponibilite != ""
  {
    match outcome
    case Fetched(records) => NormaliseAll(records)
    case FetchFailed => []
  }

  /** The category of every product, in catalog order. */
  function CategoryValues(ps: seq<Product>): (cs: seq<string>)
    ensures |cs| == |ps|
    ensures forall i :: 0 <= i < |ps| ==> cs[i] == ps[i].categorie
  {
    seq(|ps|, i requires 0 <= i < |ps| => ps[i].categorie)
  }

  /** The distinct categories of the loaded catalog, ascending. */
  function GetCategories(outcome: FetchOutcome): (cs: seq<string>)
    ensures StringOrder.StrictlySorted(cs)
    ensures forall c :: c in cs <==> exists p :: p in GetProducts(outcome) && p.categorie == c
    ensures "" !in cs
    ensures outcome.FetchFailed? ==> cs == []
  {
    var values := CategoryValues(GetProducts(outcome));
    StringOrder.UniqueSortedSpec(values);
    StringOrder.UniqueSorted(values)
  }

  /** A row carrying every field of `p`, an image as a single attachment. */
  function ToRecord(p: Product): RawRecord
  {
    RawRecord(
      p.id,
      Some(p.nom),
      Some(p.prix),
      if p.image == "" then None else Some([Attachment(Some(p.image))]),
      Some(p.disponibilite),
      Some(p.categorie))
  }

  /** The products normalisation can produce are exactly those with an availability and a category. */
  lemma NormaliseToRecord(p: Product)
    ensures Normalise(ToRecord(p)) == p <==> p.disponibilite != "" && p.categorie != ""
  {
  }

  /** Normalising a product that is already normalised changes nothing. */
  lemma NormaliseIdempotent(rec: RawRecord)
    ensures Normalise(ToRecord(Normalise(rec))) == Normalise(rec)
  {
    NormaliseToRecord(Normalise(rec));
  }
}
