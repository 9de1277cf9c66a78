/**
 * The two halves of the repository meet in the file names: the batch script
 * writes `field0_target_field2.flac`, and the page's manifest pattern reads
 * `<taal>_<tempo>_<key>.flac`. A recording whose fields 0 and 2 are non-empty
 * comes back from the script under a name the page recognises, filed under
 * the lower-cased field 0, the target BPM and field 2.
 */
module CrossFile {
  import opened Wrappers
  import opened Text
  import opened FilenamePattern
  import Catalog
  import PitchAdjust

  /** The fields of a base name the page can file: fields 0 and 2 non-empty and on one line. */
  predicate Fileable(base: string)
  {
    var fields := SplitOn(base, '_');
    && |fields| >= 3
    && fields[0] != [] && NoLineTerminator(fields[0])
    && fields[2] != [] && NoLineTerminator(fields[2])
  }

  /**
   * The export name for a non-negative target (every target of a
   * non-negative input BPM is one) matches the manifest pattern
   * with groups field 0, the target's numeral and field 2, so the catalog
   * files it under (lower-cased field 0, field 2, the numeral).
   */
  lemma ExportNameParses(base: string, target: int)
    requires Fileable(base) && target >= 0
    ensures var fields := SplitOn(base, '_');
            var name := PitchAdjust.OutputName(base, target).value;
            && MatchFileName(name) == Some(Groups(fields[0], IntToString(target), fields[2]))
            && Catalog.Denotes(name, Lower(fields[0]), fields[2], IntToString(target))
  {
    var fields := SplitOn(base, '_');
    assert fields[0] in fields;
    MatchRoundTrip(fields[0], IntToString(target), fields[2]);
  }

  /**
   * A manifest that ends with an export name makes the player resolve the
   * recording's taal and key at the target BPM to that export.
   */
  lemma ExportResolves(names: seq<string>, base: string, target: int)
    requires Fileable(base) && target >= 0
    ensures var fields := SplitOn(base, '_');
            var name := PitchAdjust.OutputName(base, target).value;
            Catalog.Resolve(Catalog.BuildCatalog(names + [name]), fields[0], fields[2], target)
              == Some(Catalog.SOUNDS_DIR + name)
  {
    var fields := SplitOn(base, '_');
    var name := PitchAdjust.OutputName(base, target).value;
    ExportNameParses(base, target);
    var all := names + [name];
    assert all[|all| - 1] == name;
    Catalog.BuildCatalogLastWins(all, |all| - 1, Lower(fields[0]), fields[2], IntToString(target));
  }
}
