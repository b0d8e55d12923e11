/**
 * The "Explore by Category" grid: the first eight categories, in the order the categories
 * endpoint returns them, each tinted with a gradient picked from an eight-entry palette by
 * its position. Fetching the categories is external; the list is a parameter here.
 */
module CountrySelector {
  import opened Wrappers
  import opened Posts

  const Palette: seq<string> := [
    "from-blue-500 to-blue-600",
    "from-red-500 to-red-600",
    "from-green-500 to-green-600",
    "from-yellow-500 to-yellow-600",
    "from-purple-500 to-purple-600",
    "from-pink-500 to-pink-600",
    "from-indigo-500 to-indigo-600",
    "from-teal-500 to-teal-600"
  ]

  /** How many categories the grid shows at most. */
  const MaxTiles: nat := 8

  const CategoryPrefix: string := "/category/"

  /** One tile: the description is shown only when it is a non-empty string. */
  datatype Tile = Tile(name: string, href: string, color: string, description: Option<string>)

  /** The tile of the category at position `index` of the list. */
  function TileOf(category: Category, index: nat): (tile: Tile)
    ensures tile.color in Palette
    ensures index < |Palette| ==> tile.color == Palette[index]
    ensures tile.description.Some? <==> category.description != ""
    ensures tile.description.Some? ==> tile.description.value == category.description
  {
    Tile(
      category.name,
      CategoryPrefix + category.slug,
      Palette[index % |Palette|],
      if category.description != "" then Some(category.description) else None)
  }

  /** `categories.slice(0, 8).map(...)` */
  function Tiles(categories: seq<Category>): (tiles: seq<Tile>)
    ensures |tiles| == if |categories| < MaxTiles then |categories| else MaxTiles
    ensures forall i :: 0 <= i < |tiles| ==> tiles[i] == TileOf(categories[i], i)
  {
    var shown := if |categories| <= MaxTiles then categories else categories[..MaxTiles];
    seq(|shown|, i requires 0 <= i < |shown| => TileOf(shown[i], i))
  }

  /** The palette entries are pairwise different. */
  lemma PaletteDistinct()
    ensures forall i, j :: 0 <= i < j < |Palette| ==> Palette[i] != Palette[j]
  {
    // The entries already differ in their sixth and seventh characters.
    var keys := ["bl", "re", "gr", "ye", "pu", "pi", "in", "te"];
    forall k | 0 <= k < |Palette|
      ensures |Palette[k]| > 6 && Palette[k][5] == keys[k][0] && Palette[k][6] == keys[k][1]
    {
      if k == 0 {} else if k == 1 {} else if k == 2 {} else if k == 3 {}
      else if k == 4 {} else if k == 5 {} else if k == 6 {} else {}
    }
    forall i, j | 0 <= i < j < |Palette|
      ensures Palette[i] != Palette[j]
    {
      assert keys[i][0] != keys[j][0] || keys[i][1] != keys[j][1];
    }
  }

  /** Since at most eight tiles are shown, no two of them share a colour. */
  lemma TileColoursDistinct(categories: seq<Category>)
    ensures forall i, j :: 0 <= i < j < |Tiles(categories)| ==> Tiles(categories)[i].color != Tiles(categories)[j].color
  {
    var tiles := Tiles(categories);
    assert |tiles| <= |Palette|;
    forall i | 0 <= i < |tiles|
      ensures tiles[i].color == Palette[i]
    {
      assert i % |Palette| == i;
    }
    PaletteDistinct();
    forall i, j | 0 <= i < j < |tiles|
      ensures tiles[i].color != tiles[j].color
    {
      assert Palette[i] != Palette[j];
    }
  }

  /** Tile i shows category i's name, links to "/category/" followed by its slug, and takes palette entry i. */
  lemma TileLinks(categories: seq<Category>)
    ensures forall i :: 0 <= i < |Tiles(categories)| ==>
      && Tiles(categories)[i].href == CategoryPrefix + categories[i].slug
      && Tiles(categories)[i].name == categories[i].name
      && Tiles(categories)[i].color == Palette[i]
  {
  }
}
