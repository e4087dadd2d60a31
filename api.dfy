/** The pure parts of frontend/src/services/api.js: the REST path templates of
    `fileAPI` and `dashboardAPI`, and `formatBytes`, in exact arithmetic. */
module Api {
  import opened Wrappers
  import opened Decimal

  /** `${BACKEND_URL}/api` */
  function ApiBase(backendUrl: string): string { backendUrl + "/api" }

  /** The name of the single multipart form field `upload` posts. */
  const UploadField: string := "file"

  function UploadPath(backendUrl: string): string { ApiBase(backendUrl) + "/files/upload" }
  function FilesPath(backendUrl: string): string { ApiBase(backendUrl) + "/files" }
  function DeletePath(backendUrl: string, fileId: string): string { ApiBase(backendUrl) + "/files/" + fileId }
  function DownloadPath(backendUrl: string, fileId: string): string
  {
    ApiBase(backendUrl) + "/files/" + fileId + "/download"
  }
  function StatsPath(backendUrl: string): string { ApiBase(backendUrl) + "/dashboard/stats" }

  // ---------------------------------------------------------------------
  // formatBytes

  const K: nat := 1024

  /** The unit labels; index 5 and above read `undefined` in JavaScript. */
  const Sizes: seq<string> := ["Bytes", "KB", "MB", "GB", "TB"]

  function Label(i: nat): string
  {
    if i < |Sizes| then Sizes[i] else "undefined"
  }

  function Pow(base: nat, e: nat): (r: nat)
    ensures base >= 1 ==> r >= 1
  {
    if e == 0 then 1 else base * Pow(base, e - 1)
  }

  /** `Math.floor(Math.log(bytes) / Math.log(1024))` for bytes >= 1, in exact
      arithmetic: the number of times 1024 fits as a factor below bytes. */
  function UnitIndex(bytes: nat): nat
    requires bytes >= 1
  {
    if bytes < K then 0 else 1 + UnitIndex(bytes / K)
  }

  /** `(bytes / 1024^i).toFixed(2)` as a count of hundredths: the integer n
      closest to 100 * bytes / 1024^i, the larger one on a tie. */
  function Hundredths(bytes: nat): nat
    requires bytes >= 1
  {
    var p := Pow(K, UnitIndex(bytes));
    (200 * bytes + p) / (2 * p)
  }

  /** formatBytes (api.js): "0 Bytes" for 0; otherwise the scaled value rounded
      to two decimals, printed without trailing zeros, a space and the unit. */
  function FormatBytes(bytes: nat): string
  {
    if bytes == 0 then "0 Bytes"
    else HundredthsText(Hundredths(bytes)) + " " + Label(UnitIndex(bytes))
  }

  // ---------------------------------------------------------------------
  // Properties of formatBytes

  lemma {:induction false} PowMonotone(d: nat, e: nat)
    requires d <= e
    ensures Pow(K, d) <= Pow(K, e)
  {
    if d < e {
      PowMonotone(d, e - 1);
    }
  }

  /** The unit index brackets the value between two consecutive powers of 1024. */
  lemma {:induction false} UnitIndexBrackets(bytes: nat)
    requires bytes >= 1
    ensures Pow(K, UnitIndex(bytes)) <= bytes < Pow(K, UnitIndex(bytes) + 1)
  {
    if bytes >= K {
      var q := bytes / K;
      UnitIndexBrackets(q);
      var i := UnitIndex(q);
      assert Pow(K, i + 1) == K * Pow(K, i);
      assert Pow(K, i + 2) == K * Pow(K, i + 1);
      assert q <= Pow(K, i + 1) - 1;
      assert K * q <= bytes < K * q + K;
    }
  }

  /** The unit index is the largest i with 1024^i <= bytes. */
  lemma UnitIndexIsLargest(bytes: nat, j: nat)
    requires bytes >= 1
    ensures Pow(K, UnitIndex(bytes)) <= bytes
    ensures Pow(K, j) <= bytes ==> j <= UnitIndex(bytes)
  {
    UnitIndexBrackets(bytes);
    if j > UnitIndex(bytes) {
      PowMonotone(UnitIndex(bytes) + 1, j);
    }
  }

  /** The label is the unit the index selects. */
  lemma LabelOfIndex(bytes: nat)
    requires 1 <= bytes < Pow(K, 5)
    ensures UnitIndex(bytes) < 5 && Label(UnitIndex(bytes)) == Sizes[UnitIndex(bytes)]
  {
    UnitIndexIsLargest(bytes, 5);
    if UnitIndex(bytes) >= 5 {
      PowMonotone(5, UnitIndex(bytes));
    }
  }

  /** For bytes >= 1 the printed number lies between 1 and 1024 inclusive. */
  lemma HundredthsRange(bytes: nat)
    requires bytes >= 1
    ensures 100 <= Hundredths(bytes) <= 102400
  {
    var p := Pow(K, UnitIndex(bytes));
    UnitIndexBrackets(bytes);
    assert Pow(K, UnitIndex(bytes) + 1) == K * p;
    var h := Hundredths(bytes);
    DivisionBounds(200 * bytes + p, 2 * p, h);
    assert 2 * p * h <= 200 * bytes + p < 2 * p * h + 2 * p;
    assert 2 * p * 100 < 2 * p * h + 2 * p by {
      assert 201 * p <= 200 * bytes + p;
    }
    assert 2 * p * h <= 2 * p * 102400 + p by {
      assert 200 * bytes + p <= 200 * (K * p - 1) + p;
    }
    MulLess(2 * p, 99, h);
    MulLessEq(2 * p, h, 102400, p);
  }

  lemma DivisionBounds(x: nat, d: nat, q: nat)
    requires d >= 1 && q == x / d
    ensures d * q <= x < d * q + d
  {
  }

  lemma MulMonotone(d: nat, x: nat, y: nat)
    requires x <= y
    ensures d * x <= d * y
  {
  }

  lemma MulLess(d: nat, a: nat, h: nat)
    requires d >= 1 && d * (a + 1) < d * h + d
    ensures a + 1 <= h
  {
    assert d * h + d == d * (h + 1);
    assert h + 1 <= a ==> d * (h + 1) <= d * a by {
      if h + 1 <= a { MulMonotone(d, h + 1, a); }
    }
  }

  lemma MulLessEq(d: nat, h: nat, a: nat, r: nat)
    requires d >= 2 && r < d && d * h <= d * a + r
    ensures h <= a
  {
    assert d * (a + 1) == d * a + d;
    assert a + 1 <= h ==> d * (a + 1) <= d * h by {
      if a + 1 <= h { MulMonotone(d, a + 1, h); }
    }
  }

  /** Rounding error: the printed number times 1024^i is within half a
      hundredth of a unit of bytes, i.e. |100 * bytes - h * 1024^i| <= 1024^i / 2. */
  lemma HundredthsError(bytes: nat)
    requires bytes >= 1
    ensures var p, h := Pow(K, UnitIndex(bytes)), Hundredths(bytes);
            -(p as int) <= 2 * (100 * bytes - h * p) <= p
  {
    var p := Pow(K, UnitIndex(bytes));
    var h := Hundredths(bytes);
    DivisionBounds(200 * bytes + p, 2 * p, h);
    assert 2 * p * h == 2 * (h * p);
  }

  /** The display contract for bytes >= 1: a
      number in [1, 1024] that parses back within rounding of the value, in the
      unit chosen by the largest power of 1024 not above it. */
  lemma FormatBytesMeaning(bytes: nat)
    requires bytes >= 1
    ensures var i, h := UnitIndex(bytes), Hundredths(bytes);
            && FormatBytes(bytes) == HundredthsText(h) + " " + Label(i)
            && ParseHundredths(HundredthsText(h)) == Some(h)
            && 100 <= h <= 102400
            && -(Pow(K, i) as int) <= 2 * (100 * bytes - h * Pow(K, i)) <= Pow(K, i)
  {
    HundredthsRoundTrip(Hundredths(bytes));
    HundredthsRange(bytes);
    HundredthsError(bytes);
  }

  /** formatBytes(0) is "0 Bytes", and no other value prints a leading "0". */
  lemma FormatBytesZero(bytes: nat)
    ensures FormatBytes(bytes)[0] == '0' <==> bytes == 0
  {
    if bytes >= 1 {
      HundredthsRange(bytes);
      var h := Hundredths(bytes);
      assert HundredthsText(h)[0] == NatToString(h / 100)[0];
    }
  }

  // ---------------------------------------------------------------------
  // Witnesses from the fixtures

  /** Fifteen mebibytes print as a whole number of megabytes. */
  lemma FormatBytesMegabytes()
    ensures FormatBytes(15728640) == "15 MB"
  {
    assert UnitIndex(15728640) == 2;
    assert Hundredths(15728640) == 1500;
    assert NatToString(15) == "15";
  }

  /** The demo account's usage, 500 GiB. */
  lemma FormatBytesGigabytes()
    ensures FormatBytes(536870912000) == "500 GB"
  {
    assert UnitIndex(512000) == 1;
    assert UnitIndex(524288000) == 2;
    assert UnitIndex(536870912000) == 3;
    assert Hundredths(536870912000) == 50000;
    assert NatToString(500) == "500";
  }

  /** The default storage limit, 1 TiB. */
  lemma FormatBytesTerabyte()
    ensures FormatBytes(1099511627776) == "1 TB"
  {
    assert UnitIndex(1048576) == 2;
    assert UnitIndex(1073741824) == 3;
    assert UnitIndex(1099511627776) == 4;
    assert Hundredths(1099511627776) == 100;
    assert NatToString(1) == "1";
  }

  /** One byte short of a mebibyte rounds up to "1024 KB" and not to "1 MB". */
  lemma FormatBytesJustUnderMegabyte()
    ensures FormatBytes(1048575) == "1024 KB"
  {
    assert UnitIndex(1048575) == 1;
    assert Hundredths(1048575) == 102400;
    assert NatToString(1024) == "1024";
  }
}
