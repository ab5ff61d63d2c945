/**
 * The records the backend persists and the policy for reading the
 * encrypted files that hold them. Each store is one file holding an
 * encrypted JSON array, rewritten in full on every append.
 */
module Store {
  import opened Wrappers

  /** Which branch wrote a journal entry. */
  datatype EntryKind = Session | CrisisEntry

  /** One journal record; `date` is milliseconds since the epoch. */
  datatype JournalEntry = JournalEntry(date: int, summary: string, message: string, mood: string, kind: EntryKind)

  /** Metadata of one uploaded voice note (`labelText` is the JSON field `label`); its audio lives in `<id>.enc`. */
  datatype VoiceMemory = VoiceMemory(id: string, date: int, labelText: string)

  /**
   * What reading a store file finds: no file, an empty file, contents
   * that fail to decrypt or parse, or the decoded array.
   */
  datatype StoredFile<T> = Missing | Empty | Corrupt | Parsed(items: seq<T>)

  /**
   * The read on the write path: every failure is swallowed and the
   * collection starts over empty.
   */
  function Recovered<T>(f: StoredFile<T>): (items: seq<T>)
    ensures ReadStrict(f).Success? ==> items == ReadStrict(f).value
    ensures f.Corrupt? ==> items == []
  {
    if f.Parsed? then f.items else []
  }

  /**
   * The read a listing request makes: a missing or empty file is an empty
   * collection, and only contents that fail to decode are an error.
   */
  function ReadStrict<T>(f: StoredFile<T>): (r: Result<seq<T>, ()>)
    ensures r.Failure? <==> f.Corrupt?
  {
    match f
    case Missing => Success([])
    case Empty => Success([])
    case Corrupt => Failure(())
    case Parsed(items) => Success(items)
  }

  /** The file after an append: the recovered collection with `x` pushed, re-encrypted. */
  function Appended<T>(f: StoredFile<T>, x: T): (g: StoredFile<T>)
    ensures g.Parsed? && |g.items| >= 1 && g.items[|g.items| - 1] == x
  {
    Parsed(Recovered(f) + [x])
  }

  /** Where a strict read succeeds it sees what the write path sees. */
  lemma StrictReadAgreesWithRecovery<T>(f: StoredFile<T>)
    ensures ReadStrict(f).Success? ==> ReadStrict(f).value == Recovered(f)
    ensures ReadStrict(f).Failure? ==> Recovered(f) == []
  {
  }

  /** Append only grows a readable store: the old records stay, in order, and one follows. */
  lemma AppendKeepsHistory<T>(items: seq<T>, x: T)
    ensures Appended(Parsed(items), x) == Parsed(items + [x])
    ensures Appended(Parsed(items), x).items[..|items|] == items
  {
  }

  /** Append never fails on bad prior data: it starts a fresh single-record store. */
  lemma AppendRecovers<T>(f: StoredFile<T>, x: T)
    requires !f.Parsed?
    ensures Appended(f, x) == Parsed([x])
  {
  }

  /** A corrupt store fails a strict read, and after one append it reads back as exactly that record. */
  lemma CorruptThenAppend<T>(f: StoredFile<T>, x: T)
    requires f.Corrupt?
    ensures ReadStrict(f).Failure?
    ensures ReadStrict(Appended(f, x)) == Success([x])
  {
    assert Recovered(f) + [x] == [x];
  }

  /** The store after appending each of `xs` in turn. */
  function AppendAll<T>(f: StoredFile<T>, xs: seq<T>): (g: StoredFile<T>)
    ensures xs == [] ==> g == f
    decreases |xs|
  {
    if xs == [] then f else AppendAll(Appended(f, xs[0]), xs[1..])
  }

  /**
   * A run of appends is a log: it reads back as what was recoverable before,
   * followed by every appended record in order, and it always reads.
   */
  lemma {:induction false} AppendAllReadsBack<T>(f: StoredFile<T>, xs: seq<T>)
    requires xs != []
    ensures ReadStrict(AppendAll(f, xs)) == Success(Recovered(f) + xs)
    decreases |xs|
  {
    if |xs| == 1 {
      assert AppendAll(f, xs) == AppendAll(Appended(f, xs[0]), []);
      assert xs == [xs[0]];
    } else {
      AppendAllReadsBack(Appended(f, xs[0]), xs[1..]);
      assert Recovered(f) + [xs[0]] + xs[1..] == Recovered(f) + xs;
    }
  }
}
