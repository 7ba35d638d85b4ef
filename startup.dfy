/**
 * `loadInitialData` of src/services/finance.service.ts: the ledger the store
 * starts from, chosen from what browser storage holds under one fixed key.
 * Reading storage and `JSON.parse` are foreign calls, so their outcomes are
 * inputs here: the read as a `StorageRead`, the parser as a function.
 */
module Startup {
  import opened Wrappers
  import opened Ledger

  /** The key the ledger is stored under. */
  const StorageKey: string := "walleto_transactions"

  /** What the startup read of the key gives. */
  datatype StorageRead =
    | NoStorage                  // `typeof localStorage === 'undefined'`
    | ReadThrows                 // `localStorage.getItem` throws
    | Read(item: Option<string>) // the stored string, or `null` when the key is absent

  /** The outcome of `Number(x)` on a stored field: a number, or NaN. */
  datatype Numeric = Finite(value: real) | NotANumber

  /**
   * One element of a stored array that is an object. `amount` is what
   * `Number` makes of its stored amount; `date` is the stored date text.
   */
  datatype RawRecord = RawRecord(
    id: string,
    kind: string,
    amount: Numeric,
    category: string,
    description: string,
    date: string)

  /** An element of the parsed array: an object, or `null` (on which `t.amount` throws). */
  datatype Element = Obj(fields: RawRecord) | Null

  /** What `JSON.parse` makes of the stored text. */
  datatype ParseOutcome =
    | SyntaxError                    // `JSON.parse` throws
    | NotArray                       // `Array.isArray(parsed)` is false
    | Array(elements: seq<Element>)

  /** The chosen ledger, and whether the catch path asked storage to remove the key. */
  datatype LoadResult = LoadResult(ledger: seq<Transaction>, clearsStored: bool)

  /** The characters `String.prototype.trim` removes: white space and line terminators, by code point. */
  predicate IsTrimmed(ch: char)
  {
    var c := ch as int;
    || 0x09 <= c <= 0x0D || c == 0x20 || c == 0xA0 || c == 0x1680 || 0x2000 <= c <= 0x200A
    || c == 0x2028 || c == 0x2029 || c == 0x202F || c == 0x205F || c == 0x3000 || c == 0xFEFF
  }

  /** `s.trim() === ''`. */
  predicate Blank(s: string)
  {
    forall i :: 0 <= i < |s| ==> IsTrimmed(s[i])
  }

  /** The stored value the source refuses before parsing: absent, empty, "undefined", "null", or blank. */
  predicate Unusable(item: Option<string>)
  {
    item.None? || item.value == "" || item.value == "undefined" || item.value == "null" || Blank(item.value)
  }

  /** `Number(t.amount) || 0`: NaN and zero both give zero. */
  function CoerceAmount(a: Numeric): (r: real)
    // a falsy number (NaN or zero) becomes zero, and only those do
    ensures r == 0.0 <==> a == NotANumber || a == Finite(0.0)
    // any other number is kept as it is
    ensures r != 0.0 ==> a == Finite(r)
  {
    match a
    case Finite(v) => v
    case NotANumber => 0.0
  }

  /** `{ ...t, amount: Number(t.amount) || 0, date: new Date(t.date) }`. */
  function Decode(raw: RawRecord, dateOf: string -> Date): Transaction
  {
    Transaction(raw.id, raw.kind, CoerceAmount(raw.amount), raw.category, raw.description, dateOf(raw.date))
  }

  /** `parsed.map(...)`, which throws on a `null` element and gives `None` here. */
  function DecodeAll(es: seq<Element>, dateOf: string -> Date): Option<seq<Transaction>>
  {
    if exists i :: 0 <= i < |es| && es[i].Null? then None
    else Some(seq(|es|, i requires 0 <= i < |es| => Decode(es[i].fields, dateOf)))
  }

  /**
   * `loadInitialData`. `now` is the instant every `new Date()` of the seed
   * ledger reads. Every modelled outcome of the read and the parse gives a
   * ledger: the `try` catches what `getItem`, `JSON.parse` and the decoding
   * throw. (The `typeof localStorage` test stands outside the `try`.)
   */
  function LoadInitialData(read: StorageRead, parse: string -> ParseOutcome, dateOf: string -> Date, now: int): (r: LoadResult)
    // no storage, or nothing usable stored: the seed ledger, and the key is left alone
    ensures read.NoStorage? || (read.Read? && Unusable(read.item)) ==> r == LoadResult(DefaultData(now), false)
    // the key is removed only on the catch path, and then the seed ledger is used
    ensures r.clearsStored ==> r.ledger == DefaultData(now)
    ensures r.clearsStored <==>
              || read.ReadThrows?
              || (read.Read? && !Unusable(read.item)
                  && (parse(read.item.value).SyntaxError?
                      || (parse(read.item.value).Array? && DecodeAll(parse(read.item.value).elements, dateOf).None?)))
    // parsed, but not an array: the seed ledger
    ensures read.Read? && !Unusable(read.item) && parse(read.item.value).NotArray? ==> r == LoadResult(DefaultData(now), false)
    // a parsed array without null elements: the same records in the same order, amount coerced, date rebuilt
    ensures read.Read? && !Unusable(read.item) && parse(read.item.value).Array? && !r.clearsStored ==>
              var es := parse(read.item.value).elements;
              && |r.ledger| == |es|
              && forall i :: 0 <= i < |es| ==> es[i].Obj? && r.ledger[i] == Decode(es[i].fields, dateOf)
  {
    match read
    case NoStorage => LoadResult(DefaultData(now), false)
    case ReadThrows => LoadResult(DefaultData(now), true)
    case Read(item) =>
      if Unusable(item) then LoadResult(DefaultData(now), false)
      else
        match parse(item.value)
        case SyntaxError => LoadResult(DefaultData(now), true)
        case NotArray => LoadResult(DefaultData(now), false)
        case Array(es) =>
          match DecodeAll(es, dateOf)
          case None => LoadResult(DefaultData(now), true)
          case Some(l) => LoadResult(l, false)
  }

  /**
   * A record as the persisting effect writes it, read back by the parser:
   * a valid `date` becomes its text. (`JSON.stringify` writes an invalid
   * date as `null`, which is not modelled.)
   */
  function Encode(t: Transaction, dateText: Date -> string): RawRecord
  {
    RawRecord(t.id, t.kind, Finite(t.amount), t.category, t.description, dateText(t.date))
  }

  /**
   * Save, then load: when the parser reads back what was written for `l`,
   * every date is valid, and reading a date back from its text gives the
   * date, the next startup
   * begins from `l` itself, in the same order, and leaves the key alone.
   */
  lemma StoredLedgerReloads(l: seq<Transaction>, text: string, parse: string -> ParseOutcome,
                            dateOf: string -> Date, dateText: Date -> string, now: int)
    requires |text| > 0 && text[0] == '['
    requires parse(text) == Array(seq(|l|, i requires 0 <= i < |l| => Obj(Encode(l[i], dateText))))
    requires forall t :: t in l ==> t.date.At? && dateOf(dateText(t.date)) == t.date
    ensures LoadInitialData(Read(Some(text)), parse, dateOf, now) == LoadResult(l, false)
  {
    assert !IsTrimmed(text[0]);
    assert text != "undefined" && text != "null" by {
      assert "undefined"[0] != '[' && "null"[0] != '[';
    }
    var es := parse(text).elements;
    var decoded := seq(|es|, i requires 0 <= i < |es| => Decode(es[i].fields, dateOf));
    forall i | 0 <= i < |l| ensures decoded[i] == l[i] {
      assert l[i] in l;
    }
  }
}
