/** The table of MD5 is what section 3.4 of RFC 1321 says it is: the whole part
    of 4294967296 times the absolute value of the sine of each number from 1 to 64. */
module SineTable {
  import opened HashSpec

  // ---- sines ----

  // Partial sums of the series of sine and cosine at 1. The terms change signs
  // and get smaller, so each value lies between one sum and the next.

  const SINE_BELOW: real :=
    1.0 - 1.0 / 6.0 * (1.0 - 1.0 / 20.0 * (1.0 - 1.0 / 42.0 * (1.0 - 1.0 / 72.0 * (1.0 - 1.0 / 110.0 * (1.0 -
    1.0 / 156.0 * (1.0 - 1.0 / 210.0 * (1.0 - 1.0 / 272.0 * (1.0 - 1.0 / 342.0 * (1.0 - 1.0 / 420.0 * (1.0 - 1.0
    / 506.0 * (1.0 - 1.0 / 600.0 * (1.0 - 1.0 / 702.0 * (1.0 - 1.0 / 812.0 * (1.0 - 1.0 / 930.0 * (1.0 - 1.0 /
    1056.0 * (1.0 - 1.0 / 1190.0))))))))))))))))

  const SINE_ABOVE: real :=
    1.0 - 1.0 / 6.0 * (1.0 - 1.0 / 20.0 * (1.0 - 1.0 / 42.0 * (1.0 - 1.0 / 72.0 * (1.0 - 1.0 / 110.0 * (1.0 -
    1.0 / 156.0 * (1.0 - 1.0 / 210.0 * (1.0 - 1.0 / 272.0 * (1.0 - 1.0 / 342.0 * (1.0 - 1.0 / 420.0 * (1.0 - 1.0
    / 506.0 * (1.0 - 1.0 / 600.0 * (1.0 - 1.0 / 702.0 * (1.0 - 1.0 / 812.0 * (1.0 - 1.0 / 930.0 * (1.0 - 1.0 /
    1056.0)))))))))))))))

  const COSINE_BELOW: real :=
    1.0 - 1.0 / 2.0 * (1.0 - 1.0 / 12.0 * (1.0 - 1.0 / 30.0 * (1.0 - 1.0 / 56.0 * (1.0 - 1.0 / 90.0 * (1.0 - 1.0
    / 132.0 * (1.0 - 1.0 / 182.0 * (1.0 - 1.0 / 240.0 * (1.0 - 1.0 / 306.0 * (1.0 - 1.0 / 380.0 * (1.0 - 1.0 /
    462.0 * (1.0 - 1.0 / 552.0 * (1.0 - 1.0 / 650.0 * (1.0 - 1.0 / 756.0 * (1.0 - 1.0 / 870.0 * (1.0 - 1.0 /
    992.0 * (1.0 - 1.0 / 1122.0))))))))))))))))

  const COSINE_ABOVE: real :=
    1.0 - 1.0 / 2.0 * (1.0 - 1.0 / 12.0 * (1.0 - 1.0 / 30.0 * (1.0 - 1.0 / 56.0 * (1.0 - 1.0 / 90.0 * (1.0 - 1.0
    / 132.0 * (1.0 - 1.0 / 182.0 * (1.0 - 1.0 / 240.0 * (1.0 - 1.0 / 306.0 * (1.0 - 1.0 / 380.0 * (1.0 - 1.0 /
    462.0 * (1.0 - 1.0 / 552.0 * (1.0 - 1.0 / 650.0 * (1.0 - 1.0 / 756.0 * (1.0 - 1.0 / 870.0 * (1.0 - 1.0 /
    992.0)))))))))))))))

  /** `s` and `c` are between the bounds that hold for the sine and the cosine of 1. */
  predicate OfOne(s: real, c: real) {
    SINE_BELOW <= s <= SINE_ABOVE && COSINE_BELOW <= c <= COSINE_ABOVE
  }

  /** What 2 cos(1) makes of a number. */
  function Twice(c: real): real -> real {
    x => 2.0 * c * x
  }

  /** The sine of a whole number, by those of the two before it: the addition
      theorem makes sin(n + 1) + sin(n - 1) twice the product of cos(1) and sin(n). */
  function Sine(s: real, twice: real -> real, n: nat): real {
    if n == 0 then 0.0 else if n == 1 then s else twice(Sine(s, twice, n - 1)) - Sine(s, twice, n - 2)
  }

  function Abs(x: real): real {
    if x < 0.0 then -x else x
  }

  /** Entry `i` of the table is the whole part of 4294967296 times the sine of `i + 1`. */
  predicate Entry(s: real, twice: real -> real, i: nat)
    requires i < 64
  {
    Md5T(i) == (4294967296.0 * Abs(Sine(s, twice, i + 1))).Floor
  }

  // ---- bounds ----

  predicate Near(x: real, a: real, e: real) {
    a - e <= x <= a + e
  }

  lemma {:induction false} OneNear(s: real, c: real)
    requires OfOne(s, c)
    ensures Near(s, 0.841470984807896506652502321630299000, 0.0000000000000000000000000000000001)
    ensures Near(c, 0.540302305868139717400936607442976604, 0.0000000000000000000000000000000001)
  {
  }

  lemma OneSmall(s: real, c: real)
    requires OfOne(s, c)
    ensures 0.0 <= c <= 0.5404
  {
  }

  /** The function multiplies by about `2 * k`: what is known up to `e` becomes
      known up to 1.0808 `e` and a little more. */
  ghost predicate Doubles(twice: real -> real, k: real, d: real) {
    forall x: real, a: real, e: real :: 0.0 <= e && -1.0 <= a <= 1.0 && Near(x, a, e) ==>
      Near(twice(x), 2.0 * k * a, 1.0808 * e + 2.0 * d)
  }

  lemma {:induction false} TwiceDoubles(c: real, k: real, d: real)
    requires Near(c, k, d) && 0.0 <= c <= 0.5404 && 0.0 <= d
    ensures Doubles(Twice(c), k, d)
  {
    hide Near;
    forall x: real, a: real, e: real | 0.0 <= e && -1.0 <= a <= 1.0 && Near(x, a, e)
      ensures Near(Twice(c)(x), 2.0 * k * a, 1.0808 * e + 2.0 * d)
    {
      ProductNear(c, k, d, x, a, e);
      TwoTimes(c, x, k * a, 0.5404 * e + d);
      assert 2.0 * (k * a) == 2.0 * k * a;
    }
  }

  lemma TwoTimes(c: real, x: real, p: real, e: real)
    requires Near(c * x, p, e)
    ensures Near(Twice(c)(x), 2.0 * p, 2.0 * e)
  {
    assert 2.0 * c * x == 2.0 * (c * x);
  }

  lemma {:induction false} ProductNear(x: real, a: real, e: real, y: real, b: real, d: real)
    requires Near(x, a, e) && Near(y, b, d)
    requires 0.0 <= e && 0.0 <= d && 0.0 <= x <= 0.5404 && -1.0 <= b <= 1.0
    ensures Near(x * y, a * b, 0.5404 * d + e)
  {
    hide Near;
    Differs(x, a, e);
    Differs(y, b, d);
    ScaleNear(x, y - b, 0.5404, d);
    ScaleNear(b, x - a, 1.0, e);
    Expand(x, y, a, b);
    Assemble(x * (y - b), b * (x - a), x * y, a * b, 0.5404 * d, e);
  }

  lemma Differs(x: real, a: real, e: real)
    requires Near(x, a, e)
    ensures Near(x - a, 0.0, e)
  {
  }

  lemma Expand(x: real, y: real, a: real, b: real)
    ensures x * y - a * b == x * (y - b) + b * (x - a)
  {
    assert x * (y - b) == x * y - x * b;
    assert b * (x - a) == x * b - a * b;
  }

  lemma Assemble(p: real, q: real, xy: real, ab: real, d: real, e: real)
    requires Near(p, 0.0, d) && Near(q, 0.0, e) && xy - ab == p + q
    ensures Near(xy, ab, d + e)
  {
  }

  lemma {:induction false} ScaleNear(k: real, z: real, m: real, d: real)
    requires Abs(k) <= m && Near(z, 0.0, d) && 0.0 <= d
    ensures Near(k * z, 0.0, m * d)
  {
    Grows(Abs(k), m, d);
    Grows(Abs(z), d, Abs(k));
  }

  lemma Grows(a: real, b: real, c: real)
    requires a <= b && 0.0 <= c
    ensures a * c <= b * c
  {
  }

  /** From one sine to the next: an error at most doubles. */
  lemma {:induction false} SineNext(s: real, twice: real -> real, n: nat, a0: real, a1: real, a2: real, e: real)
    requires Doubles(twice, 0.540302305868139717400936607442976604, 0.0000000000000000000000000000000001)
    requires 0.000000000000000000000000000000001 <= e
    requires Near(Sine(s, twice, n), a0, e) && Near(Sine(s, twice, n + 1), a1, 2.0 * e)
    requires -1.0 <= a1 <= 1.0
    requires -0.00000000000000000000000000000000001
             <= 2.0 * 0.540302305868139717400936607442976604 * a1 - a0 - a2 <= 0.00000000000000000000000000000000001
    ensures Near(Sine(s, twice, n + 2), a2, 4.0 * e)
  {
    var y := Sine(s, twice, n + 1);
    assert Near(twice(y), 2.0 * 0.540302305868139717400936607442976604 * a1,
                1.0808 * (2.0 * e) + 2.0 * 0.0000000000000000000000000000000001);
    assert Sine(s, twice, n + 2) == twice(y) - Sine(s, twice, n);
  }

  /** The digits known decide the entry. */
  lemma {:induction false} EntryNear(s: real, twice: real -> real, n: nat, a: real, t: nat, e: real)
    requires n < 64 && Near(Sine(s, twice, n + 1), a, e) && 0.0 <= e <= 0.0000000000001
    requires Md5T(n) == t && t as real + 0.001 < 4294967296.0 * Abs(a) < t as real + 0.999
    ensures Entry(s, twice, n)
  {
    hide Sine, Md5T;
    var y := Sine(s, twice, n + 1);
    assert Near(Abs(y), Abs(a), e);
  }

  lemma {:induction false} Next(s: real, twice: real -> real, n: nat, a0: real, a1: real, a2: real, t: nat, e: real)
    requires Doubles(twice, 0.540302305868139717400936607442976604, 0.0000000000000000000000000000000001) && n < 64
    requires 0.000000000000000000000000000000001 <= e <= 0.00000000000005
    requires Near(Sine(s, twice, n), a0, e) && Near(Sine(s, twice, n + 1), a1, 2.0 * e)
    requires -1.0 <= a1 <= 1.0
    requires -0.00000000000000000000000000000000001
             <= 2.0 * 0.540302305868139717400936607442976604 * a1 - a0 - a2 <= 0.00000000000000000000000000000000001
    requires Md5T(n) == t && t as real + 0.001 < 4294967296.0 * Abs(a1) < t as real + 0.999
    ensures Near(Sine(s, twice, n + 2), a2, 4.0 * e) && Entry(s, twice, n)
  {
    hide Doubles, Sine, Md5T, Entry, Near, Abs;
    SineNext(s, twice, n, a0, a1, a2, e);
    EntryNear(s, twice, n, a1, t, 2.0 * e);
  }

  // ---- the table ----

  lemma {:induction false} Sines0(s: real, twice: real -> real, e: real)
    requires Doubles(twice, 0.540302305868139717400936607442976604, 0.0000000000000000000000000000000001)
    requires 0.000000000000000000000000000000001 <= e <= 0.0000000000000001
    requires Near(Sine(s, twice, 0), 0.0, e)
    requires Near(Sine(s, twice, 1), 0.841470984807896506652502321630299000, 2.0 * e)
    ensures Near(Sine(s, twice, 8), 0.989358246623381777808123598245288672, 256.0 * e)
    ensures Near(Sine(s, twice, 9), 0.412118485241756569756272566352435179, 512.0 * e)
    ensures forall i :: 0 <= i < 8 ==> Entry(s, twice, i)
  {
    hide Doubles, Sine, Entry, Near;
    Next(s, twice, 0, 0.0, 0.841470984807896506652502321630299000,
         0.909297426825681695396019865911744843, 0xd76aa478, e);
    Next(s, twice, 1, 0.841470984807896506652502321630299000, 0.909297426825681695396019865911744843,
         0.141120008059867222100744802808110280, 0xe8c7b756, 2.0 * e);
    Next(s, twice, 2, 0.909297426825681695396019865911744843, 0.141120008059867222100744802808110280,
         -0.756802495307928251372639094511829094, 0x242070db, 4.0 * e);
    Next(s, twice, 3, 0.141120008059867222100744802808110280, -0.756802495307928251372639094511829094,
         -0.958924274663138468893154406155993973, 0xc1bdceee, 8.0 * e);
    Next(s, twice, 4, -0.756802495307928251372639094511829094, -0.958924274663138468893154406155993973,
         -0.279415498198925872811555446611894760, 0xf57c0faf, 16.0 * e);
    Next(s, twice, 5, -0.958924274663138468893154406155993973, -0.279415498198925872811555446611894760,
         0.656986598718789090396999091593635178, 0x4787c62a, 32.0 * e);
    Next(s, twice, 6, -0.279415498198925872811555446611894760, 0.656986598718789090396999091593635178,
         0.989358246623381777808123598245288672, 0xa8304613, 64.0 * e);
    Next(s, twice, 7, 0.656986598718789090396999091593635178, 0.989358246623381777808123598245288672,
         0.412118485241756569756272566352435179, 0xfd469501, 128.0 * e);
  }

  lemma {:induction false} Sines8(s: real, twice: real -> real, e: real)
    requires Doubles(twice, 0.540302305868139717400936607442976604, 0.0000000000000000000000000000000001)
    requires 0.000000000000000000000000000000001 <= e <= 0.0000000000000001
    requires Near(Sine(s, twice, 8), 0.989358246623381777808123598245288672, e)
    requires Near(Sine(s, twice, 9), 0.412118485241756569756272566352435179, 2.0 * e)
    ensures Near(Sine(s, twice, 16), -0.287903316665065294784456248218617530, 256.0 * e)
    ensures Near(Sine(s, twice, 17), -0.961397491879556857261636944869156098, 512.0 * e)
    ensures forall i :: 8 <= i < 16 ==> Entry(s, twice, i)
  {
    hide Doubles, Sine, Entry, Near;
    Next(s, twice, 8, 0.989358246623381777808123598245288672, 0.412118485241756569756272566352435179,
         -0.544021110889369813404747661851377282, 0x698098d8, e);
    Next(s, twice, 9, 0.412118485241756569756272566352435179, -0.544021110889369813404747661851377282,
         -0.999990206550703457051564899025522107, 0x8b44f7af, 2.0 * e);
    Next(s, twice, 10, -0.544021110889369813404747661851377282, -0.999990206550703457051564899025522107,
         -0.536572918000434971665374228242401792, 0xffff5bb1, 4.0 * e);
    Next(s, twice, 11, -0.999990206550703457051564899025522107, -0.536572918000434971665374228242401792,
         0.420167036826640921868955035476882788, 0x895cd7be, 8.0 * e);
    Next(s, twice, 12, -0.536572918000434971665374228242401792, 0.420167036826640921868955035476882788,
         0.990607355694870307875354804014585604, 0x6b901122, 16.0 * e);
    Next(s, twice, 13, 0.420167036826640921868955035476882788, 0.990607355694870307875354804014585604,
         0.650287840157116865829740270988870325, 0xfd987193, 32.0 * e);
    Next(s, twice, 14, 0.990607355694870307875354804014585604, 0.650287840157116865829740270988870325,
         -0.287903316665065294784456248218617530, 0xa679438e, 64.0 * e);
    Next(s, twice, 15, 0.650287840157116865829740270988870325, -0.287903316665065294784456248218617530,
         -0.961397491879556857261636944869156098, 0x49b40821, 128.0 * e);
  }

  lemma {:induction false} Sines16(s: real, twice: real -> real, e: real)
    requires Doubles(twice, 0.540302305868139717400936607442976604, 0.0000000000000000000000000000000001)
    requires 0.000000000000000000000000000000001 <= e <= 0.0000000000000001
    requires Near(Sine(s, twice, 16), -0.287903316665065294784456248218617530, e)
    requires Near(Sine(s, twice, 17), -0.961397491879556857261636944869156098, 2.0 * e)
    ensures Near(Sine(s, twice, 24), -0.905578362006623845135793358527793322, 256.0 * e)
    ensures Near(Sine(s, twice, 25), -0.132351750097773028902005093883606301, 512.0 * e)
    ensures forall i :: 16 <= i < 24 ==> Entry(s, twice, i)
  {
    hide Doubles, Sine, Entry, Near;
    Next(s, twice, 16, -0.287903316665065294784456248218617530, -0.961397491879556857261636944869156098,
         -0.750987246771676103750156084447114531, 0xf61e2562, e);
    Next(s, twice, 17, -0.961397491879556857261636944869156098, -0.750987246771676103750156084447114531,
         0.149877209662952329754239321238253949, 0xc040b340, 2.0 * e);
    Next(s, twice, 18, -0.750987246771676103750156084447114531, 0.149877209662952329754239321238253949,
         0.912945250727627654376099983845682301, 0x265e5a51, 4.0 * e);
    Next(s, twice, 19, 0.149877209662952329754239321238253949, 0.912945250727627654376099983845682301,
         0.836655638536056031866480770245023776, 0xe9b6c7aa, 8.0 * e);
    Next(s, twice, 20, 0.912945250727627654376099983845682301, 0.836655638536056031866480770245023776,
         -0.008851309290403875921690256815772332, 0xd62f105d, 16.0 * e);
    Next(s, twice, 21, 0.836655638536056031866480770245023776, -0.008851309290403875921690256815772332,
         -0.846220404175170635241326271905595928, 0x02441453, 32.0 * e);
    Next(s, twice, 22, -0.008851309290403875921690256815772332, -0.846220404175170635241326271905595928,
         -0.905578362006623845135793358527793322, 0xd8a1e681, 64.0 * e);
    Next(s, twice, 23, -0.846220404175170635241326271905595928, -0.905578362006623845135793358527793322,
         -0.132351750097773028902005093883606301, 0xe7d3fbc8, 128.0 * e);
  }

  lemma {:induction false} Sines24(s: real, twice: real -> real, e: real)
    requires Doubles(twice, 0.540302305868139717400936607442976604, 0.0000000000000000000000000000000001)
    requires 0.000000000000000000000000000000001 <= e <= 0.0000000000000001
    requires Near(Sine(s, twice, 24), -0.905578362006623845135793358527793322, e)
    requires Near(Sine(s, twice, 25), -0.132351750097773028902005093883606301, 2.0 * e)
    ensures Near(Sine(s, twice, 32), 0.551426681241690550661558166845712816, 256.0 * e)
    ensures Near(Sine(s, twice, 33), 0.999911860107267145728084376707828314, 512.0 * e)
    ensures forall i :: 24 <= i < 32 ==> Entry(s, twice, i)
  {
    hide Doubles, Sine, Entry, Near;
    Next(s, twice, 24, -0.905578362006623845135793358527793322, -0.132351750097773028902005093883606301,
         0.762558450479602737515823293204562973, 0x21e1cde6, e);
    Next(s, twice, 25, -0.132351750097773028902005093883606301, 0.762558450479602737515823293204562973,
         0.956375928404503013432340558329192950, 0xc33707d6, 2.0 * e);
    Next(s, twice, 26, 0.762558450479602737515823293204562973, 0.956375928404503013432340558329192950,
         0.270905788307869019986343092778792533, 0xf4d50d87, 4.0 * e);
    Next(s, twice, 27, 0.956375928404503013432340558329192950, 0.270905788307869019986343092778792533,
         -0.663633884212967502151173340061105151, 0x455a14ed, 8.0 * e);
    Next(s, twice, 28, 0.270905788307869019986343092778792533, -0.663633884212967502151173340061105151,
         -0.988031624092861789987748907294458150, 0xa9e3e905, 16.0 * e);
    Next(s, twice, 29, -0.663633884212967502151173340061105151, -0.988031624092861789987748907294458150,
         -0.404037645323065006048770899664237198, 0xfcefa3f8, 32.0 * e);
    Next(s, twice, 30, -0.988031624092861789987748907294458150, -0.404037645323065006048770899664237198,
         0.551426681241690550661558166845712816, 0x676f02d9, 64.0 * e);
    Next(s, twice, 31, -0.404037645323065006048770899664237198, 0.551426681241690550661558166845712816,
         0.999911860107267145728084376707828314, 0x8d2a4c8a, 128.0 * e);
  }

  lemma {:induction false} Sines32(s: real, twice: real -> real, e: real)
    requires Doubles(twice, 0.540302305868139717400936607442976604, 0.0000000000000000000000000000000001)
    requires 0.000000000000000000000000000000001 <= e <= 0.0000000000000001
    requires Near(Sine(s, twice, 32), 0.551426681241690550661558166845712816, e)
    requires Near(Sine(s, twice, 33), 0.999911860107267145728084376707828314, 2.0 * e)
    ensures Near(Sine(s, twice, 40), 0.745113160479348786987709402636344342, 256.0 * e)
    ensures Near(Sine(s, twice, 41), -0.158622668804708987103317011929687032, 512.0 * e)
    ensures forall i :: 32 <= i < 40 ==> Entry(s, twice, i)
  {
    hide Doubles, Sine, Entry, Near;
    Next(s, twice, 32, 0.551426681241690550661558166845712816, 0.999911860107267145728084376707828314,
         0.529082686120023820832487134032104754, 0xfffa3942, e);
    Next(s, twice, 33, 0.999911860107267145728084376707828314, 0.529082686120023820832487134032104754,
         -0.428182669496151004406752891745940666, 0x8771f681, 2.0 * e);
    Next(s, twice, 34, 0.529082686120023820832487134032104754, -0.428182669496151004406752891745940666,
         -0.991778853443115736835288968840815779, 0x6d9d6122, 4.0 * e);
    Next(s, twice, 35, -0.428182669496151004406752891745940666, -0.991778853443115736835288968840815779,
         -0.643538133356999460685670019080795541, 0xfde5380c, 8.0 * e);
    Next(s, twice, 36, -0.991778853443115736835288968840815779, -0.643538133356999460685670019080795541,
         0.296368578709385317392296649849017321, 0xa4beea44, 16.0 * e);
    Next(s, twice, 37, -0.643538133356999460685670019080795541, 0.296368578709385317392296649849017321,
         0.963795386284087753260664971765882115, 0x4bdecfa9, 32.0 * e);
    Next(s, twice, 38, 0.296368578709385317392296649849017321, 0.963795386284087753260664971765882115,
         0.745113160479348786987709402636344342, 0xf6bb4b60, 64.0 * e);
    Next(s, twice, 39, 0.963795386284087753260664971765882115, 0.745113160479348786987709402636344342,
         -0.158622668804708987103317011929687032, 0xbebfbc70, 128.0 * e);
  }

  lemma {:induction false} Sines40(s: real, twice: real -> real, e: real)
    requires Doubles(twice, 0.540302305868139717400936607442976604, 0.0000000000000000000000000000000001)
    requires 0.000000000000000000000000000000001 <= e <= 0.0000000000000001
    requires Near(Sine(s, twice, 40), 0.745113160479348786987709402636344342, e)
    requires Near(Sine(s, twice, 41), -0.158622668804708987103317011929687032, 2.0 * e)
    ensures Near(Sine(s, twice, 48), -0.768254661323666799044965664845893495, 256.0 * e)
    ensures Near(Sine(s, twice, 49), -0.953752652759471818360423558587710595, 512.0 * e)
    ensures forall i :: 40 <= i < 48 ==> Entry(s, twice, i)
  {
    hide Doubles, Sine, Entry, Near;
    Next(s, twice, 40, 0.745113160479348786987709402636344342, -0.158622668804708987103317011929687032,
         -0.916521547915633785898989158069671502, 0x289b7ec6, e);
    Next(s, twice, 41, -0.158622668804708987103317011929687032, -0.916521547915633785898989158069671502,
         -0.831774742628598288209578256291752240, 0xeaa127fa, 2.0 * e);
    Next(s, twice, 42, -0.916521547915633785898989158069671502, -0.831774742628598288209578256291752240,
         0.017701925105413577807954053166616699, 0xd4ef3085, 4.0 * e);
    Next(s, twice, 43, -0.831774742628598288209578256291752240, 0.017701925105413577807954053166616699,
         0.850903524534118424862379677618041119, 0x04881d05, 8.0 * e);
    Next(s, twice, 44, 0.017701925105413577807954053166616699, 0.850903524534118424862379677618041119,
         0.901788347648809185033293039222738569, 0xd9d4d039, 16.0 * e);
    Next(s, twice, 45, 0.850903524534118424862379677618041119, 0.901788347648809185033293039222738569,
         0.123573122745224004061529348086410548, 0xe6db99e5, 32.0 * e);
    Next(s, twice, 46, 0.901788347648809185033293039222738569, 0.123573122745224004061529348086410548,
         -0.768254661323666799044965664845893495, 0x1fa27cf8, 64.0 * e);
    Next(s, twice, 47, 0.123573122745224004061529348086410548, -0.768254661323666799044965664845893495,
         -0.953752652759471818360423558587710595, 0xc4ac5665, 128.0 * e);
  }

  lemma {:induction false} Sines48(s: real, twice: real -> real, e: real)
    requires Doubles(twice, 0.540302305868139717400936607442976604, 0.0000000000000000000000000000000001)
    requires 0.000000000000000000000000000000001 <= e <= 0.0000000000000001
    requires Near(Sine(s, twice, 48), -0.768254661323666799044965664845893495, e)
    requires Near(Sine(s, twice, 49), -0.953752652759471818360423558587710595, 2.0 * e)
    ensures Near(Sine(s, twice, 56), -0.521551002086911880187410021510600538, 256.0 * e)
    ensures Near(Sine(s, twice, 57), 0.436164755247824959080534793129243488, 512.0 * e)
    ensures forall i :: 48 <= i < 56 ==> Entry(s, twice, i)
  {
    hide Doubles, Sine, Entry, Near;
    Next(s, twice, 48, -0.768254661323666799044965664845893495, -0.953752652759471818360423558587710595,
         -0.262374853703928785914393646912622546, 0xf4292244, e);
    Next(s, twice, 49, -0.953752652759471818360423558587710595, -0.262374853703928785914393646912622546,
         0.670229175843374734494345074950666808, 0x432aff97, 2.0 * e);
    Next(s, twice, 50, -0.262374853703928785914393646912622546, 0.670229175843374734494345074950666808,
         0.986627592040485296587568934436740111, 0xab9423a7, 4.0 * e);
    Next(s, twice, 51, 0.670229175843374734494345074950666808, 0.986627592040485296587568934436740111,
         0.395925150181834181503386139263539273, 0xfc93a039, 8.0 * e);
    Next(s, twice, 52, 0.986627592040485296587568934436740111, 0.395925150181834181503386139263539273,
         -0.558789048851616245817871318965393797, 0x655b59c3, 16.0 * e);
    Next(s, twice, 53, 0.395925150181834181503386139263539273, -0.558789048851616245817871318965393797,
         -0.999755173358619836598631683243892199, 0x8f0ccc92, 32.0 * e);
    Next(s, twice, 54, -0.558789048851616245817871318965393797, -0.999755173358619836598631683243892199,
         -0.521551002086911880187410021510600538, 0xffeff47d, 64.0 * e);
    Next(s, twice, 55, -0.999755173358619836598631683243892199, -0.521551002086911880187410021510600538,
         0.436164755247824959080534793129243488, 0x85845dd1, 128.0 * e);
  }

  lemma {:induction false} Sines56(s: real, twice: real -> real, e: real)
    requires Doubles(twice, 0.540302305868139717400936607442976604, 0.0000000000000000000000000000000001)
    requires 0.000000000000000000000000000000001 <= e <= 0.0000000000000001
    requires Near(Sine(s, twice, 56), -0.521551002086911880187410021510600538, e)
    requires Near(Sine(s, twice, 57), 0.436164755247824959080534793129243488, 2.0 * e)
    ensures Near(Sine(s, twice, 64), 0.920026038196790683351536603777251867, 256.0 * e)
    ensures Near(Sine(s, twice, 65), 0.826828679490103467710212679670450278, 512.0 * e)
    ensures forall i :: 56 <= i < 64 ==> Entry(s, twice, i)
  {
    hide Doubles, Sine, Entry, Near;
    Next(s, twice, 56, -0.521551002086911880187410021510600538, 0.436164755247824959080534793129243488,
         0.992872648084537118165088164425399818, 0x6fa87e4f, e);
    Next(s, twice, 57, 0.436164755247824959080534793129243488, 0.992872648084537118165088164425399818,
         0.636738007139137880771233492376829383, 0xfe2ce6e0, 2.0 * e);
    Next(s, twice, 58, 0.992872648084537118165088164425399818, 0.636738007139137880771233492376829383,
         -0.304810621102216705625649465478425841, 0xa3014314, 4.0 * e);
    Next(s, twice, 59, 0.636738007139137880771233492376829383, -0.304810621102216705625649465478425841,
         -0.966117770008392947018287989480518152, 0x4e0811a1, 8.0 * e);
    Next(s, twice, 60, -0.304810621102216705625649465478425841, -0.966117770008392947018287989480518152,
         -0.739180696649222867276016933755436634, 0xf7537e82, 16.0 * e);
    Next(s, twice, 61, -0.966117770008392947018287989480518152, -0.739180696649222867276016933755436634,
         0.167355700302806921527838370288718029, 0xbd3af235, 32.0 * e);
    Next(s, twice, 62, -0.739180696649222867276016933755436634, 0.167355700302806921527838370288718029,
         0.920026038196790683351536603777251867, 0x2ad7d2bb, 64.0 * e);
    Next(s, twice, 63, 0.167355700302806921527838370288718029, 0.920026038196790683351536603777251867,
         0.826828679490103467710212679670450278, 0xeb86d391, 128.0 * e);
  }

  /** Whatever the sine and the cosine of 1 are between their bounds, the table holds
      the whole parts of 4294967296 times the sines of the numbers from 1 to 64. */
  lemma {:induction false} SineConstants(s: real, c: real)
    requires OfOne(s, c)
    ensures forall i :: 0 <= i < 64 ==> Entry(s, Twice(c), i)
  {
    hide OfOne, Entry, Near, Doubles, Twice, Sine;
    OneNear(s, c);
    OneSmall(s, c);
    TwiceDoubles(c, 0.540302305868139717400936607442976604, 0.0000000000000000000000000000000001);
    AllSines(s, Twice(c));
  }

  lemma {:induction false} AllSines(s: real, twice: real -> real)
    requires Near(s, 0.841470984807896506652502321630299000, 0.0000000000000000000000000000000001)
    requires Doubles(twice, 0.540302305868139717400936607442976604, 0.0000000000000000000000000000000001)
    ensures forall i :: 0 <= i < 64 ==> Entry(s, twice, i)
  {
    hide Entry, Doubles;
    var e := 0.000000000000000000000000000000001;
    assert Sine(s, twice, 0) == 0.0 && Sine(s, twice, 1) == s;
    hide Sine;
    Sines0(s, twice, e);
    Sines8(s, twice, 256.0 * e);
    Sines16(s, twice, 65536.0 * e);
    Sines24(s, twice, 16777216.0 * e);
    Sines32(s, twice, 4294967296.0 * e);
    Sines40(s, twice, 1099511627776.0 * e);
    Sines48(s, twice, 281474976710656.0 * e);
    Sines56(s, twice, 72057594037927936.0 * e);
  }
}
