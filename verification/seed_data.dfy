/** The starter itinerary `seedInitialData` inserts (lib/db.ts). */
module SeedData {
  import opened LocationModel

  /** A starter row: on one of the five days, inside the coordinate ranges,
      with non-empty text fields that fit their columns. */
  predicate ValidSeed(n: NewLocation)
  {
    IsDayTag(n.day) && InRange(n.lat, n.lng) && n.name != "" && n.time != "" && n.description != ""
    && WithinWidths(n.name, n.day, n.time)
  }

  /** The stops of day 1, in visiting order. */
  function Day1(j: nat): NewLocation
    requires j < 4
  {
    match j
    case 0 => NewLocation("Cala Formentor", 39.9597, 3.2097, "day1", "7:00 AM",
        "Pristine golden beach, must arrive before 10 AM road closure")
    case 1 => NewLocation("Medieval Alc\U{FA}dia", 39.8499, 3.1214, "day1", "11:00 AM",
        "Roman ruins, perfectly preserved 13th-century walls")
    case 2 => NewLocation("Playa de Alc\U{FA}dia", 39.8389, 3.1281, "day1", "2:00 PM",
        "3.5km family-friendly beach, shallow calm waters")
    case _ => NewLocation("Pollen\U{E7}a", 39.8708, 3.0208, "day1", "6:00 PM",
        "Climb 365 Calvary Steps for sunset views. Dinner at Stay Restaurant")
  }

  lemma Day1Valid(j: nat)
    requires j < 4
    ensures Day1(j).day == "day1" && ValidSeed(Day1(j))
  {
    match j
    case 0 => assert ValidSeed(Day1(0));
    case 1 => assert ValidSeed(Day1(1));
    case 2 => assert ValidSeed(Day1(2));
    case _ => assert ValidSeed(Day1(3));
  }

  /** The stops of day 2, in visiting order. */
  function Day2(j: nat): NewLocation
    requires j < 5
  {
    match j
    case 0 => NewLocation("Valldemossa", 39.7097, 2.6225, "day2", "8:00 AM",
        "Chopin's former home, honey-stone village charm")
    case 1 => NewLocation("Dei\U{E0}", 39.7481, 2.6486, "day2", "10:30 AM",
        "Artist colony, Robert Graves museum, ochre houses")
    case 2 => NewLocation("Cala Dei\U{E0}", 39.7417, 2.6444, "day2", "11:30 AM",
        "Hidden pebble cove via hiking trail")
    case 3 => NewLocation("S\U{F3}ller", 39.7650, 2.7142, "day2", "2:00 PM",
        "Golden valley town, Moorish gardens, Gaud\U{ED}-influenced church")
    case _ => NewLocation("Port de S\U{F3}ller", 39.7961, 2.6900, "day2", "5:30 PM",
        "Horseshoe bay, evening swimming. Dinner at B\U{E9}ns d'Avall or Es Blai")
  }

  lemma Day2Valid(j: nat)
    requires j < 5
    ensures Day2(j).day == "day2" && ValidSeed(Day2(j))
  {
    match j
    case 0 => assert ValidSeed(Day2(0));
    case 1 => assert ValidSeed(Day2(1));
    case 2 => assert ValidSeed(Day2(2));
    case 3 => assert ValidSeed(Day2(3));
    case _ => assert ValidSeed(Day2(4));
  }

  /** The stops of day 3, in visiting order. */
  function Day3(j: nat): NewLocation
    requires j < 5
  {
    match j
    case 0 => NewLocation("Binissalem", 39.6875, 2.8497, "day3", "9:00 AM",
        "Jos\U{E9} Luis Ferrer winery tour, indigenous grapes")
    case 1 => NewLocation("Maci\U{E0} Batle Winery", 39.6933, 2.8619, "day3", "11:00 AM",
        "Traditional family winery since 1856")
    case 2 => NewLocation("Sineu", 39.6431, 3.0197, "day3", "2:30 PM",
        "Authentic market town, Wednesday livestock market")
    case 3 => NewLocation("Vins Miquel Gelabert", 39.6106, 3.1319, "day3", "4:00 PM",
        "Artisan 'Madman of Manacor' wines")
    case _ => NewLocation("Son Forn\U{E9}s", 39.6339, 3.0306, "day3", "6:30 PM",
        "Bronze Age archaeological site. Dinner in Montu\U{EF}ri at S'Hostal")
  }

  lemma Day3Valid(j: nat)
    requires j < 5
    ensures Day3(j).day == "day3" && ValidSeed(Day3(j))
  {
    match j
    case 0 => assert ValidSeed(Day3(0));
    case 1 => assert ValidSeed(Day3(1));
    case 2 => assert ValidSeed(Day3(2));
    case 3 => assert ValidSeed(Day3(3));
    case _ => assert ValidSeed(Day3(4));
  }

  /** The stops of day 4, in visiting order. */
  function Day4(j: nat): NewLocation
    requires j < 6
  {
    match j
    case 0 => NewLocation("Cala Mondrag\U{F3}", 39.3417, 3.1856, "day4", "7:30 AM",
        "Protected natural park, pristine beaches")
    case 1 => NewLocation("Cala des Moro", 39.3275, 3.1781, "day4", "10:30 AM",
        "Instagram-famous tiny turquoise cove")
    case 2 => NewLocation("Cala Llombards", 39.3247, 3.1647, "day4", "2:00 PM",
        "Sheltered cove with fishing huts")
    case 3 => NewLocation("Es Trenc", 39.3500, 2.9667, "day4", "4:00 PM",
        "7km 'Caribbean-style' white sand (expect crowds)")
    case 4 => NewLocation("Santuari de Sant Blai", 39.3631, 3.0347, "day4", "5:30 PM",
        "Hilltop monastery, panoramic sunset views")
    case _ => NewLocation("Porto Colom", 39.4175, 3.2656, "day4", "Dinner",
        "Sa Llotja harbor views, fresh daily catch")
  }

  lemma Day4Valid(j: nat)
    requires j < 6
    ensures Day4(j).day == "day4" && ValidSeed(Day4(j))
  {
    match j
    case 0 => assert ValidSeed(Day4(0));
    case 1 => assert ValidSeed(Day4(1));
    case 2 => assert ValidSeed(Day4(2));
    case 3 => assert ValidSeed(Day4(3));
    case 4 => assert ValidSeed(Day4(4));
    case _ => assert ValidSeed(Day4(5));
  }

  /** The stops of day 5, in visiting order. */
  function Day5(j: nat): NewLocation
    requires j < 6
  {
    match j
    case 0 => NewLocation("Sant Elm", 39.5803, 2.3531, "day5", "8:30 AM",
        "Westernmost beach, Sa Dragonera island views")
    case 1 => NewLocation("Sa Dragonera", 39.5850, 2.3167, "day5", "10:30 AM",
        "Uninhabited nature reserve island boat trip")
    case 2 => NewLocation("Sa Trapa", 39.5719, 2.3619, "day5", "2:30 PM",
        "Clifftop monastery ruins hike, dramatic views")
    case 3 => NewLocation("Andratx", 39.5433, 2.3833, "day5", "4:00 PM",
        "Authentic market town, contemporary art center")
    case 4 => NewLocation("Estellencs", 39.6519, 2.5003, "day5", "5:30 PM",
        "MA-10 UNESCO coastal route")
    case _ => NewLocation("Banyalbufar", 39.6792, 2.5167, "day5", "Evening",
        "MA-10 route, sunset dinner at Es Grau with Mediterranean views")
  }

  lemma Day5Valid(j: nat)
    requires j < 6
    ensures Day5(j).day == "day5" && ValidSeed(Day5(j))
  {
    match j
    case 0 => assert ValidSeed(Day5(0));
    case 1 => assert ValidSeed(Day5(1));
    case 2 => assert ValidSeed(Day5(2));
    case 3 => assert ValidSeed(Day5(3));
    case 4 => assert ValidSeed(Day5(4));
    case _ => assert ValidSeed(Day5(5));
  }

  /** The `i`-th starter row, in insertion order. */
  function SeedRow(i: nat): NewLocation
    requires i < 26
  {
    if i < 4 then Day1(i)
    else if i < 9 then Day2(i - 4)
    else if i < 14 then Day3(i - 9)
    else if i < 20 then Day4(i - 14)
    else Day5(i - 20)
  }

  /** Every starter row is valid. */
  lemma SeedRowValid(i: nat)
    requires i < 26
    ensures ValidSeed(SeedRow(i))
  {
    if i < 9 {
      EarlyRowValid(i);
    } else if i < 20 {
      MiddleRowValid(i);
    } else {
      Day5Valid(i - 20);
    }
  }

  lemma EarlyRowValid(i: nat)
    requires i < 9
    ensures ValidSeed(SeedRow(i))
  {
    if i < 4 { Day1Valid(i); } else { Day2Valid(i - 4); }
  }

  lemma MiddleRowValid(i: nat)
    requires 9 <= i < 20
    ensures ValidSeed(SeedRow(i))
  {
    if i < 14 { Day3Valid(i - 9); } else { Day4Valid(i - 14); }
  }

  predicate AllValid(s: seq<NewLocation>)
  {
    forall i :: 0 <= i < |s| ==> ValidSeed(s[i])
  }

  /** The starter itinerary: 26 valid rows, day by day. */
  function SeedLocations(): (s: seq<NewLocation>)
    ensures |s| == 26
    ensures AllValid(s)
  {
    var s := seq(26, i requires 0 <= i < 26 => SeedRow(i));
    assert AllValid(s) by {
      forall i | 0 <= i < 26
        ensures ValidSeed(s[i])
      {
        SeedRowValid(i);
      }
    }
    s
  }
}
