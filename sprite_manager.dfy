/**
 * The sprite-set list of `SpriteManager.tsx`: the case-insensitive search
 * filter and the thumbnail strip with its overflow badge.
 */
module SpriteManager {
  import opened Wrappers
  import opened Text
  import opened Seqs
  import opened FrameTypes

  /** The filter predicate: the text occurs, ignoring case, in the id or, when there is metadata, in its object or action. */
  predicate Matches(spriteSet: SpriteSet, filterText: string) {
    var needle := Lower(filterText);
    Includes(Lower(spriteSet.id), needle)
    || (spriteSet.metadata.Some? && Includes(Lower(spriteSet.metadata.value.obj), needle))
    || (spriteSet.metadata.Some? && Includes(Lower(spriteSet.metadata.value.action), needle))
  }

  /** `filteredSpriteSets`: all sets for an empty search text, otherwise the matching ones. */
  function FilteredSpriteSets(spriteSets: seq<SpriteSet>, filterText: string): seq<SpriteSet> {
    if filterText == "" then spriteSets else Filter(spriteSets, (s: SpriteSet) => Matches(s, filterText))
  }

  /**
   * An empty search shows every set in order; any search shows, in order, a
   * subsequence of the sets holding exactly the matching ones.
   */
  lemma FilteredSpriteSetsFacts(spriteSets: seq<SpriteSet>, filterText: string)
    ensures var r := FilteredSpriteSets(spriteSets, filterText);
      (filterText == "" ==> r == spriteSets)
      && SubsequenceOf(r, spriteSets)
      && (filterText != "" ==> forall s :: s in r <==> s in spriteSets && Matches(s, filterText))
  {
    var p := (s: SpriteSet) => Matches(s, filterText);
    if filterText == "" {
      FilterKeepsAll(spriteSets, (s: SpriteSet) => true);
      assert Filter(spriteSets, (s: SpriteSet) => true) == spriteSets;
      FilterIsSubsequence(spriteSets, (s: SpriteSet) => true);
    } else {
      FilterIsSubsequence(spriteSets, p);
    }
  }

  /** A set without metadata is found only through its id. */
  lemma NoMetadataMatchesOnId(spriteSet: SpriteSet, filterText: string)
    requires spriteSet.metadata.None?
    ensures Matches(spriteSet, filterText) <==> exists i :: OccursAt(Lower(spriteSet.id), Lower(filterText), i)
  {
  }

  /** Lower-casing twice is lower-casing once. */
  lemma LowerIdempotent(s: string)
    ensures Lower(Lower(s)) == Lower(s)
  {
    forall i | 0 <= i < |s| ensures Lower(Lower(s))[i] == Lower(s)[i] {
      var c := s[i];
      if 'A' <= c <= 'Z' {
        assert 'a' <= LowerChar(c) <= 'z';
      }
    }
  }

  /** The search ignores the case of what is typed: typing it in lower case finds the same sets. */
  lemma FilterIgnoresCase(spriteSet: SpriteSet, filterText: string)
    ensures Matches(spriteSet, Lower(filterText)) == Matches(spriteSet, filterText)
  {
    LowerIdempotent(filterText);
  }

  /** `thumbnails.slice(0, 4)`: the thumbnails shown for a set. */
  function ShownThumbnails(thumbnails: seq<string>): (r: seq<string>)
    ensures |r| <= 4 && r <= thumbnails
    ensures |thumbnails| <= 4 ==> r == thumbnails
    ensures |thumbnails| > 4 ==> |r| == 4
  {
    if |thumbnails| <= 4 then thumbnails else thumbnails[..4]
  }

  /** The "+N" badge: shown only with more than four thumbnails, counting the hidden ones. */
  function OverflowBadge(thumbnails: seq<string>): (r: Option<nat>)
    ensures r.Some? <==> |thumbnails| > 4
  {
    if |thumbnails| > 4 then Some(|thumbnails| - 4) else None
  }

  /** The shown thumbnails and the badge count together account for every thumbnail. */
  lemma ThumbnailsAccounted(thumbnails: seq<string>)
    ensures |ShownThumbnails(thumbnails)| + OverflowBadge(thumbnails).GetOr(0) == |thumbnails|
    ensures OverflowBadge(thumbnails).Some? ==> OverflowBadge(thumbnails).value >= 1
  {
  }
}
