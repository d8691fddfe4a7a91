/**
 * The record tree the validator reads, as plain values, and the
 * configuration it is run with. The tree is what the external GEDCOM reader
 * yields; how it parses the file, and how it derives a surname, is not part
 * of this model.
 */
module Records {
  import opened Wrappers

  /** One event tag under a record, with the values of its first DATE and PLAC children, if any. */
  datatype Event = Event(tag: string, date: Option<string>, place: Option<string>)

  /** A NAME tag: its raw value and the surname the reader extracted from it, if any. */
  datatype NameTag = NameTag(raw: string, surname: Option<string>)

  /** An INDI record: its cross-reference id, its first NAME tag, and its event children by tag, in order. */
  datatype Indi = Indi(xref: Option<string>, name: Option<NameTag>, events: map<string, seq<Event>>)

  /** A FAM record: its cross-reference id and its event children by tag, in order. */
  datatype Fam = Fam(xref: Option<string>, events: map<string, seq<Event>>)

  /** The records of a file, in file order. */
  datatype Tree = Tree(indis: seq<Indi>, fams: seq<Fam>)

  /** `children_tags(tag)`: the children with that tag, in order; none when the tag does not occur. */
  function Children(events: map<string, seq<Event>>, tag: string): seq<Event> {
    if tag in events then events[tag] else []
  }

  /**
   * What the reader guarantees of `children_tags(t)`: every child listed
   * under tag `t` has that tag.
   */
  predicate WellTagged(events: map<string, seq<Event>>) {
    forall t, k :: t in events && 0 <= k < |events[t]| ==> events[t][k].tag == t
  }

  /** The three settings the validator reads from the configuration. */
  datatype Config = Config(
    dateFormats: seq<string>,
    placeStructures: seq<string>,
    enforceSurnameSlashes: bool)

  /** The values used when a key is absent from the configuration. */
  const DefaultConfig := Config([], [], true)

  /** The two kinds of record the validator walks, and the constants that differ between them. */
  datatype RecordKind = Individual | Family {

    /** The record tag that starts every tag path. */
    function Root(): string {
      if Individual? then "INDI" else "FAM"
    }

    /** The id used when a record has no cross-reference id. */
    function Placeholder(): string {
      if Individual? then "UNKNOWN_INDI" else "UNKNOWN_FAM"
    }

    /** The `record_type` of a finding about one of the record's events. */
    function EventRecordType(): string {
      if Individual? then "Event (Individual)" else "Event (Family)"
    }

    /** The event tags that are checked, in the order they are checked. */
    function EventTags(): seq<string> {
      if Individual? then ["BIRT", "DEAT", "CHR", "ADOP", "BURI", "EVEN"]
      else ["MARR", "DIV", "ANUL", "ENGA", "EVEN"]
    }

    /** How the suggestion of a date finding ends. */
    function DateSuggestionTail(): string {
      if Individual? then " or GEDCOM date phrases (ABT, BEF, BET...AND...)." else " or GEDCOM date phrases."
    }

    /** How the message of a place finding ends. */
    function PlaceMessageTail(): string {
      if Individual? then " does not match expected structures based on comma count."
      else " does not match structures based on comma count."
    }
  }
}
