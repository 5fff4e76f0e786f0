/** The synthetic identity generator of constants.tsx: the reference tables,
    dotted-quad IP synthesis and proxy records drawn from the tables.
    Every `Math.random()` call is an input: a fraction num/den in [0, 1). */
module Identity {
  import opened Types
  import Text

  /** A value of `Math.random()`, written as the fraction num/den. */
  datatype Draw = Draw(num: nat, den: nat)
  type Random = d: Draw | d.num < d.den witness Draw(0, 1)

  lemma FloorBelow(r: Random, n: nat, k: nat)
    requires k * r.den <= r.num * n
    ensures n > 0 ==> k < n
  {
    if n > 0 && k >= n {
      calc {
        r.num * n;
      < r.den * n;
      <= r.den * k;
      }
    }
  }

  /** `Math.floor(r * n)`: the largest k with k <= r * n, which lies in [0, n)
      whenever n > 0, so indexing a table of length n with it is in bounds. */
  function Scale(r: Random, n: nat): (k: nat)
    ensures k * r.den <= r.num * n < (k + 1) * r.den
    ensures n > 0 ==> k < n
  {
    var k := (r.num * n) / r.den;
    FloorBelow(r, n, k);
    k
  }

  datatype Country = Country(name: string, code: string, cities: seq<string>)

  const Countries: seq<Country> := [
    Country("United States", "US", ["New York", "Los Angeles", "Chicago"]),
    Country("Germany", "DE", ["Berlin", "Frankfurt", "Munich"]),
    Country("Japan", "JP", ["Tokyo", "Osaka", "Kyoto"]),
    Country("United Kingdom", "GB", ["London", "Manchester", "Birmingham"]),
    Country("Singapore", "SG", ["Singapore City"])
  ]

  const Isps: seq<string> := ["CloudNet Pro", "GlobalConnect", "Titan Backbone", "OmniFiber", "CyberGuard ISP"]

  const SampleVideos: seq<string> := [
    "https://www.w3schools.com/html/mov_bbb.mp4",
    "https://interactive-examples.mdn.mozilla.net/media/cc0-videos/flower.mp4",
    "https://vjs.zencdn.net/v/oceans.mp4"
  ]

  /** The four draws of `generateRandomIP`, in call order. */
  datatype IpDraws = IpDraws(first: Random, second: Random, third: Random, fourth: Random)

  /** The four bytes drawn by `Math.floor(Math.random() * 256)`. */
  function Octets(d: IpDraws): (os: seq<nat>)
    ensures |os| == 4 && forall k | 0 <= k < 4 :: os[k] < 256
  {
    [Scale(d.first, 256), Scale(d.second, 256), Scale(d.third, 256), Scale(d.fourth, 256)]
  }

  function DecimalFields(os: seq<nat>): (fields: seq<string>)
    ensures |fields| == |os|
    ensures forall k | 0 <= k < |os| :: fields[k] == Text.NatToDecimal(os[k])
    decreases |os|
  {
    if os == [] then [] else [Text.NatToDecimal(os[0])] + DecimalFields(os[1..])
  }

  /** The decimal fields of numbers never hold a dot, so joining them on '.'
      can be undone by splitting. */
  lemma JoinedFieldsSplitBack(os: seq<nat>)
    ensures os != [] ==> Text.Split(Text.Join(DecimalFields(os), '.'), '.') == DecimalFields(os)
    ensures os != [] ==> Text.Count(Text.Join(DecimalFields(os), '.'), '.') == |os| - 1
  {
    var fields := DecimalFields(os);
    if os != [] {
      forall k | 0 <= k < |fields| ensures '.' !in fields[k] {
        assert Text.AllDigits(fields[k]);
      }
      Text.SplitJoin(fields, '.');
    }
  }

  /** `octets.join('.')`: splitting the text on '.' gives back the decimal
      field of each number, so it holds one dot fewer than there are numbers. */
  function FormatIP(os: seq<nat>): (ip: string)
    ensures os != [] ==> Text.Split(ip, '.') == DecimalFields(os)
    ensures os != [] ==> Text.Count(ip, '.') == |os| - 1
  {
    JoinedFieldsSplitBack(os);
    Text.Join(DecimalFields(os), '.')
  }

  /** `generateRandomIP()`: four decimal fields joined by exactly three dots;
      reading them back gives the four drawn bytes, each in 0..255. */
  function GenerateRandomIP(d: IpDraws): (ip: string)
    ensures Text.Count(ip, '.') == 3
    ensures ParseDottedQuad(ip) == Some(Octets(d))
  {
    FormatIPRoundTrip(Octets(d));
    FormatIP(Octets(d))
  }

  function FieldValues(fields: seq<string>): (vs: seq<nat>)
    requires forall k | 0 <= k < |fields| :: Text.AllDigits(fields[k])
    ensures |vs| == |fields|
    ensures forall k | 0 <= k < |fields| :: vs[k] == Text.DecimalValue(fields[k])
    decreases |fields|
  {
    if fields == [] then [] else [Text.DecimalValue(fields[0])] + FieldValues(fields[1..])
  }

  /** Reading a dotted quad: split on '.', expect four non-empty digit fields. */
  function ParseDottedQuad(s: string): (r: Option<seq<nat>>)
    ensures r.Some? ==> |r.value| == 4
  {
    var fields := Text.Split(s, '.');
    if |fields| == 4 && forall k | 0 <= k < 4 :: fields[k] != [] && Text.AllDigits(fields[k])
    then Some(FieldValues(fields))
    else None
  }

  /** Formatting any four numbers as a dotted quad and reading it back gives
      the four numbers, and the text holds exactly three dots. */
  lemma FormatIPRoundTrip(os: seq<nat>)
    requires |os| == 4
    ensures ParseDottedQuad(FormatIP(os)) == Some(os)
    ensures Text.Count(FormatIP(os), '.') == 3
  {
    var fields := DecimalFields(os);
    forall k | 0 <= k < 4 ensures Text.DecimalValue(fields[k]) == os[k] {
      Text.DecimalRoundTrip(os[k]);
    }
    assert FieldValues(fields) == os;
  }

  /** The draws of `generateRandomProxy`, in call order. */
  datatype ProxyDraws = ProxyDraws(country: Random, ip: IpDraws, city: Random, isp: Random, latency: Random)

  /** `generateRandomProxy()`: the city comes from the chosen country's own
      list, the ISP from the ISP table, and the latency lies in [10, 159]. */
  function GenerateRandomProxy(d: ProxyDraws): (p: VirtualProxy)
    ensures exists k | 0 <= k < |Countries| :: p.country == Countries[k].name && p.city in Countries[k].cities
    ensures p.isp in Isps
    ensures 10 <= p.latency <= 159
    ensures p.ip == GenerateRandomIP(d.ip)
  {
    var i := Scale(d.country, |Countries|);
    var country := Countries[i];
    assert |country.cities| > 0;
    VirtualProxy(
      GenerateRandomIP(d.ip),
      country.name,
      country.cities[Scale(d.city, |country.cities|)],
      Isps[Scale(d.isp, |Isps|)],
      Scale(d.latency, 150) + 10)
  }
}
