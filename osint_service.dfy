/**
 * The contact lookup (src/services/osintService.ts): a case-insensitive name
 * search that returns every match, and a digit-normalised phone search that
 * returns the first match only. Both are pure; the `async` wrapper of the
 * original adds nothing observable and is not modelled.
 */
module OsintService {
  import opened OsintDatabase
  import Text
  import Seqs

  /** The lookup's answer: a populated result, or only the error message. */
  datatype OsintResult =
    | Found(name: string, addresses: seq<string>, phones: seq<string>)
    | NotFound(error: string)

  const NoRecordsFound := "No records found"

  // ---------------------------------------------------------------------------
  // Array.prototype.map over records
  // ---------------------------------------------------------------------------

  function Addresses(rs: seq<Record>): (r: seq<string>)
    ensures |r| == |rs|
    ensures forall k :: 0 <= k < |rs| ==> r[k] == rs[k].address
  {
    seq(|rs|, k requires 0 <= k < |rs| => rs[k].address)
  }

  function Phones(rs: seq<Record>): (r: seq<string>)
    ensures |r| == |rs|
    ensures forall k :: 0 <= k < |rs| ==> r[k] == rs[k].phone
  {
    seq(|rs|, k requires 0 <= k < |rs| => rs[k].phone)
  }

  // ---------------------------------------------------------------------------
  // searchByName
  // ---------------------------------------------------------------------------

  /** The name test: the lower-cased record name contains the lower-cased query. */
  predicate NameHit(query: string, r: Record) {
    Text.Includes(Text.ToLower(r.name), Text.ToLower(query))
  }

  /** Every record of `table` whose name matches `query`, in table order. */
  function NameMatches(table: seq<Record>, query: string): seq<Record> {
    Seqs.Filter(table, r => NameHit(query, r))
  }

  /** `searchByName` over a table: the first match's name and the address and phone of every match. */
  function SearchByNameIn(table: seq<Record>, query: string): OsintResult {
    var matches := NameMatches(table, query);
    if |matches| == 0 then NotFound(NoRecordsFound)
    else Found(matches[0].name, Addresses(matches), Phones(matches))
  }

  /** `searchByName` over the contact table. */
  function SearchByName(query: string): (r: OsintResult)
    ensures r.NotFound? ==> r.error == NoRecordsFound
    ensures r.Found? ==> |r.addresses| == |r.phones| > 0
  {
    SearchByNameIn(Records, query)
  }

  /** A record matches exactly when its lower-cased name contains the lower-cased query at some offset. */
  lemma NameMatchIff(table: seq<Record>, query: string, x: Record)
    ensures x in NameMatches(table, query) <==>
      x in table && exists i :: Text.OccursAt(Text.ToLower(x.name), Text.ToLower(query), i)
  {
    Seqs.FilterMembership(table, r => NameHit(query, r), x);
    Text.IncludesIff(Text.ToLower(x.name), Text.ToLower(query));
  }

  /**
   * The result is only the error when no name matches; otherwise its name is the
   * first match in table order, and it lists one address and one phone per match,
   * in table order.
   */
  lemma SearchByNameResult(table: seq<Record>, query: string)
    ensures var r := SearchByNameIn(table, query);
      && (r.NotFound? <==> forall i :: 0 <= i < |table| ==> !NameHit(query, table[i]))
      && (r.NotFound? ==> r.error == "No records found")
      && (r.Found? ==>
            && (exists i :: 0 <= i < |table| && NameHit(query, table[i]) && r.name == table[i].name
                  && forall j :: 0 <= j < i ==> !NameHit(query, table[j]))
            && |r.addresses| == |r.phones| == |NameMatches(table, query)|
            && forall k :: 0 <= k < |r.addresses| ==>
                 r.addresses[k] == NameMatches(table, query)[k].address
                 && r.phones[k] == NameMatches(table, query)[k].phone)
  {
    Seqs.FilterHead(table, r => NameHit(query, r));
  }

  /** An empty query is contained in every name, so every record matches. */
  lemma EmptyNameQueryMatchesAll(table: seq<Record>)
    ensures NameMatches(table, "") == table
    ensures |table| > 0 ==> SearchByNameIn(table, "") == Found(table[0].name, Addresses(table), Phones(table))
  {
    Seqs.FilterAll(table, r => NameHit("", r));
  }

  // ---------------------------------------------------------------------------
  // searchByPhone
  // ---------------------------------------------------------------------------

  /** The phone test: the record's digits contain the query's digits. */
  predicate PhoneHit(query: string, r: Record) {
    Text.Includes(Text.DigitsOnly(r.phone), Text.DigitsOnly(query))
  }

  /** `records.find(...)`: the index of the first record whose phone matches, if any. */
  function FirstPhoneHit(table: seq<Record>, query: string): (i: int)
    ensures -1 <= i < |table|
    ensures i == -1 <==> forall j :: 0 <= j < |table| ==> !PhoneHit(query, table[j])
    ensures i >= 0 ==> PhoneHit(query, table[i]) && forall j :: 0 <= j < i ==> !PhoneHit(query, table[j])
    decreases |table|
  {
    if |table| == 0 then -1
    else if PhoneHit(query, table[0]) then 0
    else
      var k := FirstPhoneHit(table[1..], query);
      if k == -1 then -1 else k + 1
  }

  /** `searchByPhone` over a table: the first match only, as one-element lists. */
  function SearchByPhoneIn(table: seq<Record>, query: string): OsintResult {
    var i := FirstPhoneHit(table, query);
    if i == -1 then NotFound(NoRecordsFound)
    else Found(table[i].name, [table[i].address], [table[i].phone])
  }

  /** `searchByPhone` over the contact table. */
  function SearchByPhone(query: string): (r: OsintResult)
    ensures r.NotFound? ==> r.error == NoRecordsFound
    ensures r.Found? ==> |r.addresses| == |r.phones| == 1 && r.phones[0] in Phones(Records)
  {
    SearchByPhoneIn(Records, query)
  }

  /** The phone test holds exactly when the query's digits occur in the record's digits. */
  lemma PhoneHitIff(query: string, r: Record)
    ensures PhoneHit(query, r) ==> exists i :: Text.OccursAt(Text.DigitsOnly(r.phone), Text.DigitsOnly(query), i)
    ensures (exists i :: Text.OccursAt(Text.DigitsOnly(r.phone), Text.DigitsOnly(query), i)) ==> PhoneHit(query, r)
  {
    Text.IncludesIff(Text.DigitsOnly(r.phone), Text.DigitsOnly(query));
  }

  /**
   * The phone search strips every non-digit from both sides, returns only the
   * error when no record matches, and otherwise the first matching record in
   * table order with singleton address and phone lists.
   */
  lemma SearchByPhoneResult(table: seq<Record>, query: string)
    ensures var r := SearchByPhoneIn(table, query);
      && (r.NotFound? <==> forall j :: 0 <= j < |table| ==>
            !exists i :: Text.OccursAt(Text.DigitsOnly(table[j].phone), Text.DigitsOnly(query), i))
      && (r.NotFound? ==> r.error == "No records found")
      && (r.Found? ==>
            exists i :: (0 <= i < |table| && PhoneHit(query, table[i])
              && (forall j :: 0 <= j < i ==> !PhoneHit(query, table[j]))
              && r == Found(table[i].name, [table[i].address], [table[i].phone])))
  {
    var r := SearchByPhoneIn(table, query);
    if r.NotFound? {
      forall j | 0 <= j < |table|
        ensures !exists i :: Text.OccursAt(Text.DigitsOnly(table[j].phone), Text.DigitsOnly(query), i)
      {
        PhoneHitIff(query, table[j]);
      }
    } else {
      var k := FirstPhoneHit(table, query);
      PhoneHitIff(query, table[k]);
    }
  }

  /** A query without digits becomes the empty string, which every phone contains: the first record is returned. */
  lemma PhoneQueryWithoutDigits(table: seq<Record>, query: string)
    requires |table| > 0
    requires forall k :: 0 <= k < |query| ==> !Text.IsDigit(query[k])
    ensures SearchByPhoneIn(table, query) == Found(table[0].name, [table[0].address], [table[0].phone])
  {
    Text.DigitsOnlyOfNoDigits(query);
  }

  /** Punctuation in the query is ignored: two queries with the same digits give the same answer. */
  lemma PhoneQueryPunctuationIgnored(table: seq<Record>, q1: string, q2: string)
    requires Text.DigitsOnly(q1) == Text.DigitsOnly(q2)
    ensures SearchByPhoneIn(table, q1) == SearchByPhoneIn(table, q2)
  {
    SameDigitsSameHit(table, q1, q2);
  }

  lemma {:induction false} SameDigitsSameHit(table: seq<Record>, q1: string, q2: string)
    requires Text.DigitsOnly(q1) == Text.DigitsOnly(q2)
    ensures FirstPhoneHit(table, q1) == FirstPhoneHit(table, q2)
    decreases |table|
  {
    if |table| > 0 {
      SameDigitsSameHit(table[1..], q1, q2);
    }
  }

  /** `find` stops at the earlier of two entries with the same phone, so the later one is never the answer. */
  lemma LaterDuplicateNeverFound(table: seq<Record>, query: string, a: int, b: int)
    requires 0 <= a < b < |table| && table[a].phone == table[b].phone
    ensures FirstPhoneHit(table, query) != b
  {
  }

  /**
   * On the contact table the phone search never answers with the second or
   * third Steven entry, nor with the later entry of a duplicate pair: entries
   * 1, 2, 4, 6 and every odd entry from 9 on are unreachable by phone.
   */
  lemma DuplicatesNeverFoundByPhone(query: string)
    ensures forall i :: LaterTwin(i) ==> FirstPhoneHit(Records, query) != i
  {
    forall i | LaterTwin(i)
      ensures FirstPhoneHit(Records, query) != i
    {
      EarlierTwinSharesPhone(i);
      LaterDuplicateNeverFound(Records, query, EarlierTwin(i), i);
    }
  }

  /** The listed number 4047691559 finds the first entry of the table. */
  lemma SearchStevenByPhone()
    ensures SearchByPhone("4047691559")
      == Found("Steven D Siedentop", ["1475 Holly Lake Circle 30078"], ["4047691559"])
  {
    TableShape();
    PhonesAreTenDigits();
    Text.IncludesSameLength(Records[0].phone, "4047691559");
    assert PhoneHit("4047691559", Records[0]);
  }
}
