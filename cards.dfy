/**
 * The character-sheet capability the pipeline consumes: entry and ability
 * lookup, the sheet's preferred default roll, its kind (a DnD sheet redirects
 * skill names) and `setEntry`. The sheet implementations themselves are not
 * part of this model; a sheet is a value and a card is the object that holds it.
 */
module Cards {

  datatype CardKind = CocCard | DndCard | GeneralCard

  /** An entry: its numeric value and the `type`/`postfix` tags a DnD sheet uses. */
  datatype Entry = Entry(value: int, entryType: string, postfix: string)

  datatype Sheet = Sheet(
    name: string,
    kind: CardKind,
    entries: map<string, Entry>,
    abilities: map<string, string>,  // ability name -> its dice expression
    defaultRoll: string              // "" when the sheet prefers none
  )

  /** `card.getEntry(key) || card.getAbility(key)`: the sheet names `key`. */
  predicate Names(sheet: Sheet, key: string) {
    key in sheet.entries || key in sheet.abilities
  }

  /**
   * The entries after `setEntry(name, value)` and whether the call reports a
   * change: it reports one exactly when the entry map is different afterwards.
   */
  function SetEntryResult(entries: map<string, Entry>, name: string, value: int): (r: (map<string, Entry>, bool))
    ensures r.0.Keys == entries.Keys + {name}
    ensures r.0[name].value == value
    ensures forall k :: k in entries && k != name ==> r.0[k] == entries[k]
    ensures r.1 <==> r.0 != entries
  {
    if name in entries then
      var updated := entries[name := entries[name].(value := value)];
      assert entries[name].value == value ==> updated == entries;
      assert updated[name].value == value;
      (updated, entries[name].value != value)
    else
      assert name !in entries && name in entries[name := Entry(value, "", "")];
      (entries[name := Entry(value, "", "")], true)
  }

  class Card {
    var sheet: Sheet

    constructor (sheet: Sheet)
      ensures this.sheet == sheet
    {
      this.sheet := sheet;
    }

    /** `setEntry(name, value)`: writes the value and reports whether it changed anything. */
    method SetEntry(name: string, value: int) returns (changed: bool)
      modifies this
      ensures (sheet.entries, changed) == SetEntryResult(old(sheet.entries), name, value)
      ensures sheet == old(sheet).(entries := sheet.entries)
    {
      var r := SetEntryResult(sheet.entries, name, value);
      sheet := sheet.(entries := r.0);
      changed := r.1;
    }
  }
}
