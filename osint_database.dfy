/** The static contact table searched by the lookup widget (src/data/osintDatabase.ts). */
module OsintDatabase {
  import opened Wrappers
  import Text

  /** One contact; `age` is present on only a few entries and never searched. */
  datatype Record = Record(name: string, age: Option<string>, address: string, phone: string)

  /**
   * The 40-entry table in declaration order; it is never mutated. The literal is
   * written as four consecutive blocks of ten so that each fact about the
   * entries is checked against one block at a time.
   */
  const Records: seq<Record> := Block0 + Block1 + Block2 + Block3

  /** Entries 0 to 9 of the table. */
  const Block0: seq<Record> := [
    Record("Steven D Siedentop", Some("50s"), "1475 Holly Lake Circle 30078", "4047691559"),
    Record("StevenDSiedentop", Some("50s"), "1475 Holly Lake Circle 30078", "4047691559"),
    Record("Steven Siedentop", Some("50s"), "1475 Holly Lake Circle 30078", "4047691559"),
    Record("WyllyElmore", None, "1495 Holly Lake Circle 30078", "7707573571"),
    Record("Wylly Elmore", None, "1495 Holly Lake Circle 30078", "7707573571"),
    Record("Jaime Siedentop", None, "1475 Holly Lake Circle, Snellville, GA 30078", "6788966803"),
    Record("JaimeSiedentop", None, "1475 Holly Lake Circle, Snellville, GA 30078", "6788966803"),
    Record("Ian Siedentop", Some("teens"), "1475 Holly Lake Circle 30078", "4702332485"),
    Record("Chase Pullman", None, "3120 Rosewood Court, Norcross, GA 30092", "6782453091"),
    Record("ChasePullman", None, "3120 Rosewood Court, Norcross, GA 30092", "6782453091")
  ]

  /** Entries 10 to 19 of the table. */
  const Block1: seq<Record> := [
    Record("Morgan Zapata", None, "5981 Maple Street, Tucker, GA 30084", "6784113820"),
    Record("MorganZapata", None, "5981 Maple Street, Tucker, GA 30084", "6784113820"),
    Record("Harper Cortez", None, "4251 Oak Lane, Stone Mountain, GA 30083", "6789027654"),
    Record("HarperCortez", None, "4251 Oak Lane, Stone Mountain, GA 30083", "6789027654"),
    Record("Jordan McCray", None, "1807 Clover Drive, Suwanee, GA 30024", "6783902187"),
    Record("JordanMcCray", None, "1807 Clover Drive, Suwanee, GA 30024", "6783902187"),
    Record("Riley Adams", None, "2475 Laurel Street, Duluth, GA 30096", "6785551378"),
    Record("RileyAdams", None, "2475 Laurel Street, Duluth, GA 30096", "6785551378"),
    Record("Avery Morgan", None, "5900 Lake Avenue, Lilburn, GA 30047", "6781249562"),
    Record("AveryMorgan", None, "5900 Lake Avenue, Lilburn, GA 30047", "6781249562")
  ]

  /** Entries 20 to 29 of the table. */
  const Block2: seq<Record> := [
    Record("Addison Rivera", None, "1351 Sycamore Drive, Lawrenceville, GA 30046", "6789483049"),
    Record("AddisonRivera", None, "1351 Sycamore Drive, Lawrenceville, GA 30046", "6789483049"),
    Record("Kennedy Scott", None, "4325 Birchwood Lane, Buford, GA 30518", "6787732109"),
    Record("KennedyScott", None, "4325 Birchwood Lane, Buford, GA 30518", "6787732109"),
    Record("Hayden Blake", None, "5699 Lakeview Circle, Loganville, GA 30052", "6788729536"),
    Record("HaydenBlake", None, "5699 Lakeview Circle, Loganville, GA 30052", "6788729536"),
    Record("Cameron Hayes", None, "2207 Orchard Street, Flowery Branch, GA 30542", "6782047589"),
    Record("CameronHayes", None, "2207 Orchard Street, Flowery Branch, GA 30542", "6782047589"),
    Record("Morgan Hunt", None, "3376 Primrose Lane, Decatur, GA 30033", "6785213089"),
    Record("MorganHunt", None, "3376 Primrose Lane, Decatur, GA 30033", "6785213089")
  ]

  /** Entries 30 to 39 of the table. */
  const Block3: seq<Record> := [
    Record("Taylor Ayers", None, "1823 Pinewood Drive, Conyers, GA 30012", "6789403851"),
    Record("TaylorAyers", None, "1823 Pinewood Drive, Conyers, GA 30012", "6789403851"),
    Record("Jordan Nash", None, "9040 Cedar Street, Gainesville, GA 30501", "6784629187"),
    Record("JordanNash", None, "9040 Cedar Street, Gainesville, GA 30501", "6784629187"),
    Record("Quinn Franklin", None, "5681 Highland Avenue, Athens, GA 30606", "6783314208"),
    Record("QuinnFranklin", None, "5681 Highland Avenue, Athens, GA 30606", "6783314208"),
    Record("Skyler Doyle", None, "2875 Maple Avenue, Winder, GA 30680", "6789946153"),
    Record("SkylerDoyle", None, "2875 Maple Avenue, Winder, GA 30680", "6789946153"),
    Record("Payton Todd", None, "6758 Ivy Court, Bethlehem, GA 30620", "6787154380"),
    Record("PaytonTodd", None, "6758 Ivy Court, Bethlehem, GA 30620", "6787154380")
  ]

  /** Entry `i` of the table, read through its block. */
  lemma EntryInBlock(i: int)
    requires 0 <= i < 40
    ensures |Records| == 40
    ensures Records[i] == if i < 10 then Block0[i] else if i < 20 then Block1[i - 10]
                          else if i < 30 then Block2[i - 20] else Block3[i - 30]
  {
  }

  /** The table holds 40 records and starts with Steven D Siedentop. */
  lemma TableShape()
    ensures |Records| == 40
    ensures Records[0].name == "Steven D Siedentop" && Records[0].phone == "4047691559"
  {
    EntryInBlock(0);
  }

  // ---------------------------------------------------------------------------
  // Phones
  // ---------------------------------------------------------------------------

  /** Ten decimal digits, spelled out position by position. */
  predicate TenDigits(p: string) {
    |p| == 10 && Text.IsDigit(p[0]) && Text.IsDigit(p[1]) && Text.IsDigit(p[2]) && Text.IsDigit(p[3])
    && Text.IsDigit(p[4]) && Text.IsDigit(p[5]) && Text.IsDigit(p[6]) && Text.IsDigit(p[7])
    && Text.IsDigit(p[8]) && Text.IsDigit(p[9])
  }

  lemma TenDigitsAreDigits(p: string)
    requires TenDigits(p)
    ensures |p| == 10 && Text.AllDigits(p)
  {
    forall k | 0 <= k < 10 ensures Text.IsDigit(p[k]) {
      assert k == 0 || k == 1 || k == 2 || k == 3 || k == 4 || k == 5 || k == 6 || k == 7 || k == 8 || k == 9;
    }
  }

  lemma PhonesOfBlock0()
    ensures |Block0| == 10
    ensures forall i :: 0 <= i < 10 ==> TenDigits(Block0[i].phone)
  {
    forall i | 0 <= i < 10 ensures TenDigits(Block0[i].phone) {
      assert i == 0 || i == 1 || i == 2 || i == 3 || i == 4 || i == 5 || i == 6 || i == 7 || i == 8 || i == 9;
    }
  }

  lemma PhonesOfBlock1()
    ensures |Block1| == 10
    ensures forall i :: 0 <= i < 10 ==> TenDigits(Block1[i].phone)
  {
    forall i | 0 <= i < 10 ensures TenDigits(Block1[i].phone) {
      assert i == 0 || i == 1 || i == 2 || i == 3 || i == 4 || i == 5 || i == 6 || i == 7 || i == 8 || i == 9;
    }
  }

  lemma PhonesOfBlock2()
    ensures |Block2| == 10
    ensures forall i :: 0 <= i < 10 ==> TenDigits(Block2[i].phone)
  {
    forall i | 0 <= i < 10 ensures TenDigits(Block2[i].phone) {
      assert i == 0 || i == 1 || i == 2 || i == 3 || i == 4 || i == 5 || i == 6 || i == 7 || i == 8 || i == 9;
    }
  }

  lemma PhonesOfBlock3()
    ensures |Block3| == 10
    ensures forall i :: 0 <= i < 10 ==> TenDigits(Block3[i].phone)
  {
    forall i | 0 <= i < 10 ensures TenDigits(Block3[i].phone) {
      assert i == 0 || i == 1 || i == 2 || i == 3 || i == 4 || i == 5 || i == 6 || i == 7 || i == 8 || i == 9;
    }
  }

  /** Every stored phone is exactly ten decimal digits, so stripping non-digits leaves it unchanged. */
  lemma PhonesAreTenDigits()
    ensures forall i :: 0 <= i < |Records| ==>
      |Records[i].phone| == 10 && Text.AllDigits(Records[i].phone) && Text.DigitsOnly(Records[i].phone) == Records[i].phone
  {
    PhonesOfBlock0();
    PhonesOfBlock1();
    PhonesOfBlock2();
    PhonesOfBlock3();
    forall i | 0 <= i < |Records|
      ensures |Records[i].phone| == 10 && Text.AllDigits(Records[i].phone)
      ensures Text.DigitsOnly(Records[i].phone) == Records[i].phone
    {
      EntryInBlock(i);
      TenDigitsAreDigits(Records[i].phone);
      Text.DigitsOnlyOfDigits(Records[i].phone);
    }
  }

  /** The phone 4047691559 belongs to the first three entries, which are the three Steven entries. */
  lemma StevenPhone()
    ensures |Records| == 40
    ensures forall i :: 0 <= i < 3 ==> Records[i].phone == "4047691559" && Records[i].age == Some("50s")
  {
    forall i | 0 <= i < 3 ensures Records[i].phone == "4047691559" && Records[i].age == Some("50s") {
      EntryInBlock(i);
    }
  }

  // ---------------------------------------------------------------------------
  // Spaced / unspaced duplicates
  // ---------------------------------------------------------------------------

  /** Two entries for the same contact: identical address and phone. */
  predicate SameContact(a: Record, b: Record) {
    a.address == b.address && a.phone == b.phone
  }

  lemma DuplicatesInBlock0()
    ensures |Block0| == 10
    ensures SameContact(Block0[0], Block0[1]) && SameContact(Block0[4], Block0[3])
    ensures SameContact(Block0[5], Block0[6]) && SameContact(Block0[8], Block0[9])
  {
  }

  lemma DuplicatesInBlock1()
    ensures |Block1| == 10
    ensures forall i :: 0 <= i < 9 && i % 2 == 0 ==> SameContact(Block1[i], Block1[i + 1])
  {
    forall i | 0 <= i < 9 && i % 2 == 0 ensures SameContact(Block1[i], Block1[i + 1]) {
      assert i == 0 || i == 2 || i == 4 || i == 6 || i == 8;
    }
  }

  lemma DuplicatesInBlock2()
    ensures |Block2| == 10
    ensures forall i :: 0 <= i < 9 && i % 2 == 0 ==> SameContact(Block2[i], Block2[i + 1])
  {
    forall i | 0 <= i < 9 && i % 2 == 0 ensures SameContact(Block2[i], Block2[i + 1]) {
      assert i == 0 || i == 2 || i == 4 || i == 6 || i == 8;
    }
  }

  lemma DuplicatesInBlock3()
    ensures |Block3| == 10
    ensures forall i :: 0 <= i < 9 && i % 2 == 0 ==> SameContact(Block3[i], Block3[i + 1])
  {
    forall i | 0 <= i < 9 && i % 2 == 0 ensures SameContact(Block3[i], Block3[i + 1]) {
      assert i == 0 || i == 2 || i == 4 || i == 6 || i == 8;
    }
  }

  /**
   * Each spaced name and its unspaced duplicate ("Chase Pullman" / "ChasePullman")
   * have the same address and phone: entries 0/1, 4/3, 5/6, and every even entry
   * from 8 on with the entry after it.
   */
  lemma DuplicatesShareContact()
    ensures |Records| == 40
    ensures SameContact(Records[0], Records[1]) && SameContact(Records[4], Records[3])
    ensures SameContact(Records[5], Records[6])
    ensures forall i :: 8 <= i < 39 && i % 2 == 0 ==> SameContact(Records[i], Records[i + 1])
  {
    DuplicatesInBlock0();
    DuplicatesInBlock1();
    DuplicatesInBlock2();
    DuplicatesInBlock3();
    EntryInBlock(0); EntryInBlock(1); EntryInBlock(3); EntryInBlock(4); EntryInBlock(5); EntryInBlock(6);
    forall i | 8 <= i < 39 && i % 2 == 0 ensures SameContact(Records[i], Records[i + 1]) {
      EntryInBlock(i);
      EntryInBlock(i + 1);
    }
  }

  /** The entries listed after another entry with the same phone: the second and third Steven entries, and the later entry of each duplicate pair. */
  predicate LaterTwin(i: int) {
    i == 1 || i == 2 || i == 4 || i == 6 || (9 <= i < 40 && i % 2 == 1)
  }

  /** The earlier entry with the same phone as a later twin. */
  function EarlierTwin(i: int): int {
    if i <= 2 then 0 else if i == 4 then 3 else if i == 6 then 5 else i - 1
  }

  lemma EarlierTwinSharesPhone(i: int)
    requires LaterTwin(i)
    ensures 0 <= EarlierTwin(i) < i < |Records|
    ensures Records[EarlierTwin(i)].phone == Records[i].phone
  {
    StevenPhone();
    DuplicatesShareContact();
    if 9 <= i {
      var a := i - 1;
      assert 8 <= a < 39 && a % 2 == 0;
      assert SameContact(Records[a], Records[a + 1]);
    }
  }
}
