/** The published snapshot, and the storage provider that keeps a copy across restarts. */
module Store {
  import opened Wrappers
  import opened Domain
  import opened JsonValue
  import opened JsonCodec

  // ---- flag store ----

  datatype FlagStoreState = FlagStoreState(snapshot: ToggleSet, ready: bool)

  class FlagStore {
    var snapshot: ToggleSet
    var ready: bool

    function View(): FlagStoreState
      reads this
    {
      FlagStoreState(snapshot, ready)
    }

    constructor ()
      ensures View() == FlagStoreState(map[], false)
    {
      snapshot, ready := map[], false;
    }

    /** Two separate stores: a reader may see the new snapshot before the store is ready. */
    method Replace(newSnapshot: Option<ToggleSet>)
      modifies this
      ensures newSnapshot.None? ==> View() == old(View())
      ensures newSnapshot.Some? ==> View() == FlagStoreState(newSnapshot.value, true)
    {
      if newSnapshot.None? {
        return;
      }
      snapshot := newSnapshot.value;
      ready := true;
    }
  }

  // ---- storage provider ----

  /** The backing file: absent, holding no JSON (as when an unfinished save truncated it), or holding a document. */
  datatype Stored = Missing | Unreadable | Document(root: Json)

  function Load(cell: Stored): Option<ToggleSet> {
    if !cell.Document? then None
    else
      match DecodeFeatures(Some(cell.root))
      case Failure(_) => None
      case Success(s) => Some(s)
  }

  /** Some iteration order of s leads to this document. */
  ghost predicate Stores(cell: Stored, s: ToggleSet) {
    exists order :: IterationOrder(order, s) && cell == Document(EncodeFeatures(order, s))
  }

  /** A set that came out of the decoder is reloaded unchanged. */
  lemma StoredNormalSetIsLoaded(cell: Stored, s: ToggleSet)
    requires Stores(cell, s) && NormalSet(s)
    ensures Load(cell) == Some(s)
  {
    var order :| IterationOrder(order, s) && cell == Document(EncodeFeatures(order, s));
    NormalSetsSurviveStorage(order, s);
  }

  /** Whatever is loaded is normal, so loading, saving and loading again gives the same set. */
  lemma LoadSaveLoad(cell: Stored, again: Stored)
    requires Load(cell).Some? && Stores(again, Load(cell).value)
    ensures Load(again) == Load(cell) && NormalSet(Load(cell).value)
  {
    DecodedSetsAreNormal(Some(cell.root));
    StoredNormalSetIsLoaded(again, Load(cell).value);
  }

  class FileStorageProvider {
    var cell: Stored

    constructor (cell: Stored)
      ensures this.cell == cell
    {
      this.cell := cell;
    }

    method Get() returns (s: Option<ToggleSet>)
      ensures s == Load(cell)
      ensures s.Some? <==> cell.Document? && DecodeFeatures(Some(cell.root)).Success?
      ensures s.Some? ==> DecodeFeatures(Some(cell.root)) == Success(s.value)
    {
      if cell.Missing? {
        return None;
      }
      if cell.Unreadable? {
        return None;
      }
      var decoded := DecodeClientFeaturesResponse(Some(cell.root));
      if decoded.Failure? {
        return None;
      }
      s := Some(decoded.value);
    }

    /** opens tells whether the directory and the file could be opened for writing. */
    method Save(s: ToggleSet, opens: bool)
      modifies this
      ensures if opens then Stores(cell, s) else cell == old(cell)
    {
      if !opens {
        return;
      }
      cell := Unreadable;
      var root := EncodeClientFeaturesResponse(s);
      cell := Document(root);
    }
  }
}
