/** The gallery dialog of frontend/src/components/Gallery.tsx: the loaded item
    list, the item shown in the detail view, the loading flag, and the name of a
    downloaded image. Network outcomes and the clock are inputs. */
module Gallery {
  import opened Common

  datatype GalleryItem = GalleryItem(
    id: string,
    sketchData: string,
    imageData: string,
    prompt: string,
    createdAt: string)

  function ItemId(item: GalleryItem): string { item.id }

  /** How an awaited `fetch` ended: it resolved (with any HTTP status) or it threw. */
  datatype FetchOutcome = Resolved | Threw

  // ---------------------------------------------------------------------------
  // Download file name

  function DigitChar(d: nat): (c: char)
    requires d < 10
    ensures '0' <= c <= '9' && c as int - '0' as int == d
  {
    ['0', '1', '2', '3', '4', '5', '6', '7', '8', '9'][d]
  }

  /** How a template literal prints a non-negative integer. */
  function Decimal(n: nat): (d: string)
    ensures |d| >= 1
    ensures forall i :: 0 <= i < |d| ==> '0' <= d[i] <= '9'
    ensures n >= 10 ==> d[0] != '0'
    decreases n
  {
    if n < 10 then [DigitChar(n)] else Decimal(n / 10) + [DigitChar(n % 10)]
  }

  /** Reading a string of decimal digits back as a number. */
  function DigitsValue(d: string): nat
    requires forall i :: 0 <= i < |d| ==> '0' <= d[i] <= '9'
    decreases |d|
  {
    if d == [] then 0
    else DigitsValue(d[..|d| - 1]) * 10 + (d[|d| - 1] as int - '0' as int)
  }

  /** The printed timestamp reads back as the same number. */
  lemma {:induction false} DecimalRoundTrip(n: nat)
    ensures DigitsValue(Decimal(n)) == n
    decreases n
  {
    if n >= 10 {
      var d := Decimal(n);
      assert d[..|d| - 1] == Decimal(n / 10);
      DecimalRoundTrip(n / 10);
    }
  }

  function Min(a: nat, b: nat): nat { if a < b then a else b }

  const NamePrefix: string := "skycanvas-"
  const NameSuffix: string := ".png"

  /** `downloadImage`: "skycanvas-", at most the first 20 characters of the prompt,
      "-", the millisecond clock, ".png". */
  function DownloadName(prompt: string, nowMillis: nat): (name: string)
  {
    NamePrefix + prompt[..Min(20, |prompt|)] + "-" + Decimal(nowMillis) + NameSuffix
  }

  /** The name starts with the fixed prefix, ends with ".png", carries the prompt's
      first min(20, |prompt|) characters right after the prefix, and the clock
      digits before the suffix read back as the clock. */
  lemma DownloadNameParts(prompt: string, nowMillis: nat)
    ensures var name := DownloadName(prompt, nowMillis);
      var k := Min(20, |prompt|);
      var digits := name[|NamePrefix| + k + 1..|name| - |NameSuffix|];
      && name[..|NamePrefix|] == "skycanvas-"
      && name[|name| - |NameSuffix|..] == ".png"
      && name[|NamePrefix|..|NamePrefix| + k] == prompt[..k]
      && name[|NamePrefix| + k] == '-'
      && (forall i :: 0 <= i < |digits| ==> '0' <= digits[i] <= '9')
      && DigitsValue(digits) == nowMillis
      && (|prompt| <= 20 ==> name[|NamePrefix|..|NamePrefix| + k] == prompt)
  {
    var k := Min(20, |prompt|);
    var name := DownloadName(prompt, nowMillis);
    var d := Decimal(nowMillis);
    assert name == NamePrefix + prompt[..k] + "-" + d + NameSuffix;
    assert name[|NamePrefix| + k + 1..|name| - |NameSuffix|] == d;
    DecimalRoundTrip(nowMillis);
  }

  /** The anchor `downloadImage` clicks: its `download` name and its `href`. */
  datatype Link = Link(download: string, href: string)

  function DownloadImage(imageData: string, prompt: string, nowMillis: nat): (link: Link)
    ensures link.href == imageData
    ensures link.download == DownloadName(prompt, nowMillis)
  {
    Link(DownloadName(prompt, nowMillis), imageData)
  }

  // ---------------------------------------------------------------------------
  // The dialog's state

  class GalleryView {
    var items: seq<GalleryItem>
    var selectedItem: Option<GalleryItem>
    var loading: bool

    constructor ()
      ensures items == [] && selectedItem == None && !loading
    {
      items := [];
      selectedItem := None;
      loading := false;
    }

    /** `loadGallery`. `response` is the parsed `items` of GET /api/gallery, or
        `None` when the request or the JSON parse threw. */
    method LoadGallery(response: Option<seq<GalleryItem>>)
      modifies this
      ensures response.Some? ==> items == response.value
      ensures response.None? ==> items == old(items)
      ensures selectedItem == old(selectedItem)
      ensures !loading
    {
      loading := true;
      if response.Some? {
        items := response.value;
      }
      loading := false;
    }

    /** Clicking a card opens its detail view; the close button clears it. */
    method Select(item: Option<GalleryItem>)
      modifies this
      ensures selectedItem == item && items == old(items) && loading == old(loading)
    {
      selectedItem := item;
    }

    /** `deleteItem`. Nothing happens when the user refuses the confirmation or the
        request throws; a request that resolves, whatever its status, removes every
        item with that id locally and closes the detail view if it showed that id. */
    method DeleteItem(id: string, confirmed: bool, request: FetchOutcome)
      modifies this
      ensures !confirmed || request == Threw ==>
        items == old(items) && selectedItem == old(selectedItem)
      ensures confirmed && request == Resolved ==>
        && items == Without(old(items), ItemId, id)
        && (old(selectedItem).Some? && old(selectedItem).value.id == id ==> selectedItem == None)
        && (old(selectedItem).None? || old(selectedItem).value.id != id ==> selectedItem == old(selectedItem))
      ensures loading == old(loading)
    {
      if !confirmed {
        return;
      }
      if request == Threw {
        return;
      }
      items := Without(items, ItemId, id);
      if selectedItem.Some? && selectedItem.value.id == id {
        selectedItem := None;
      }
    }

    /** The detail view's download button: an anchor whose file name is built from
        the shown item's prompt and the clock, and whose target is its image. */
    method DownloadSelected(nowMillis: nat) returns (link: Option<Link>)
      ensures selectedItem.None? ==> link.None?
      ensures selectedItem.Some? ==>
        link == Some(Link(DownloadName(selectedItem.value.prompt, nowMillis), selectedItem.value.imageData))
    {
      if selectedItem.None? {
        return None;
      }
      link := Some(DownloadImage(selectedItem.value.imageData, selectedItem.value.prompt, nowMillis));
    }
  }

  /** Deleting twice is deleting once, and other items keep their order. */
  lemma DeleteTwiceIsDeleteOnce(items: seq<GalleryItem>, id: string, before: seq<GalleryItem>, after: seq<GalleryItem>)
    requires items == before + after
    ensures Without(Without(items, ItemId, id), ItemId, id) == Without(items, ItemId, id)
    ensures Without(items, ItemId, id) == Without(before, ItemId, id) + Without(after, ItemId, id)
  {
    WithoutIdempotent(items, ItemId, id);
    WithoutConcat(before, after, ItemId, id);
  }
}
