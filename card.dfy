/**
 * The integration card of the marketplace list: the labels it shows, the cover
 * image behind its icon and its badges.
 */
module Card {
  import opened Strings
  import opened Models
  import Icon

  /** The version as labelled: one leading lowercase "v" dropped. */
  function VersionLabel(version: string): (r: string)
    ensures HasPrefix(version, "v") ==> "v" + r == version
    ensures !HasPrefix(version, "v") ==> r == version
  {
    if HasPrefix(version, "v") then version[1..] else version
  }

  /** Exactly one "v" is dropped, however many there are. */
  lemma VersionLabelDropsOne(rest: string)
    ensures VersionLabel("v" + rest) == rest
  {
  }

  /** The cover: the "icon" asset if it is set and not empty, else the first image if not empty, else nothing. */
  function Cover(item: Integration): (c: string)
    ensures "icon" in item.assets && item.assets["icon"] != "" ==> c == item.assets["icon"]
    ensures c == "" || ("icon" in item.assets && c == item.assets["icon"]) || (|item.images| > 0 && c == item.images[0])
    ensures c == "" <==> ("icon" !in item.assets || item.assets["icon"] == "") && (|item.images| == 0 || item.images[0] == "")
  {
    if "icon" in item.assets && item.assets["icon"] != "" then item.assets["icon"]
    else if |item.images| > 0 && item.images[0] != "" then item.images[0]
    else ""
  }

  const CommunityLabel := "Community"
  const NoDescription := "No description provided."

  /** JavaScript's `text || fallback` on strings: the text unless it is empty. */
  function OrDefault(text: string, fallback: string): (r: string)
    ensures text != "" ==> r == text
    ensures text == "" ==> r == fallback
    ensures fallback != "" ==> r != ""
  {
    if text != "" then text else fallback
  }

  datatype Badge = VerifiedBadge | CommunityBadge | FeaturedBadge

  /** The badges: Verified or Community, then Featured for featured integrations. */
  function Badges(item: Integration): (b: seq<Badge>)
    ensures VerifiedBadge in b <==> item.verified
    ensures CommunityBadge in b <==> !item.verified
    ensures FeaturedBadge in b <==> item.featured
    ensures |b| == if item.featured then 2 else 1
  {
    [if item.verified then VerifiedBadge else CommunityBadge] + (if item.featured then [FeaturedBadge] else [])
  }

  /** What a card shows. */
  datatype CardView = CardView(
    publisher: string,
    name: string,
    versionLabel: string,
    icon: Icon.IconView,
    listenPath: string,
    description: string,
    badges: seq<Badge>,
    downloads: int)

  /** The card for an integration; the icon falls back to the name's first letter. */
  function Render(item: Integration): (v: CardView)
    ensures v.name == item.name && v.listenPath == item.listenPath && v.downloads == item.downloads
    ensures v.publisher != "" && v.description != ""
    ensures item.publisher == "" ==> v.publisher == CommunityLabel
    ensures item.description == "" ==> v.description == NoDescription
  {
    CardView(
      OrDefault(item.publisher, CommunityLabel),
      item.name,
      VersionLabel(item.version),
      Icon.Resolve(Cover(item), item.name),
      item.listenPath,
      OrDefault(item.description, NoDescription),
      Badges(item),
      item.downloads)
  }

  /** An integration with neither icon asset nor first image shows its name's first letter, uppercased. */
  lemma NoCoverShowsInitial(item: Integration)
    requires "icon" !in item.assets && |item.images| == 0
    ensures Render(item).icon == Icon.Letter(Icon.FirstLetter(item.name))
  {
  }

  /** A cover image is shown as an image unless it names a known "fa:" icon. */
  lemma CoverShownAsImage(item: Integration)
    requires Cover(item) != "" && !HasPrefix(Cover(item), Icon.FaPrefix)
    ensures Render(item).icon == Icon.Image(Cover(item))
  {
  }
}
