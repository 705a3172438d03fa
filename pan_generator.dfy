/** Card number generation: a BIN, random digits and the Luhn check digit of
    ISO/IEC 7812-1 (Annex B), and three-digit random CVVs. */
module PanGenerator {
  import opened Common
  import opened Randomness

  predicate AllDigits(s: string) {
    forall i :: 0 <= i < |s| ==> IsAsciiDigit(s[i])
  }

  lemma AllDigitsConcat(a: string, b: string)
    ensures AllDigits(a + b) <==> AllDigits(a) && AllDigits(b)
  {
    var c := a + b;
    if AllDigits(c) {
      forall k | 0 <= k < |a| ensures IsAsciiDigit(a[k]) { assert a[k] == c[k]; }
      forall k | 0 <= k < |b| ensures IsAsciiDigit(b[k]) { assert b[k] == c[k + |a|]; }
    }
  }

  /** A digit's contribution to the Luhn sum: doubled digits above 9 lose 9. */
  function Weight(d: int, doubled: bool): (w: int)
    requires 0 <= d <= 9
    ensures 0 <= w <= 9
  {
    if !doubled then d else if 2 * d > 9 then 2 * d - 9 else 2 * d
  }

  /** The Luhn sum of s[i..]. The rightmost digit is doubled when doubleLast holds,
      and every second digit to its left shares its treatment. */
  function WeightedSum(s: string, i: nat, doubleLast: bool): (n: int)
    requires AllDigits(s)
    ensures n >= 0
    decreases |s| - i
  {
    if i >= |s| then 0
    else Weight(DigitValue(s[i]), ((|s| - 1 - i) % 2 == 0) == doubleLast) + WeightedSum(s, i + 1, doubleLast)
  }

  /** A number passes the Luhn check: counting from the rightmost (check) digit,
      which is not doubled, the sum is a multiple of ten. */
  predicate LuhnValid(pan: string) {
    AllDigits(pan) && WeightedSum(pan, 0, false) % 10 == 0
  }

  /** The digit that completes a partial number: the Luhn sum with the rightmost
      digit doubled, brought up to the next multiple of ten. */
  function CheckDigit(partial: string): (d: int)
    requires AllDigits(partial)
    ensures 0 <= d <= 9
  {
    (10 - WeightedSum(partial, 0, true) % 10) % 10
  }

  /** Appending a digit moves every position of p one place from the right. */
  lemma {:induction false} WeightedSumAppend(p: string, c: char, i: nat)
    requires AllDigits(p) && IsAsciiDigit(c) && i <= |p|
    ensures AllDigits(p + [c])
    ensures WeightedSum(p + [c], i, false) == WeightedSum(p, i, true) + DigitValue(c)
    decreases |p| - i
  {
    var q := p + [c];
    assert AllDigits(q) by {
      forall k | 0 <= k < |q| ensures IsAsciiDigit(q[k]) {
        if k < |p| { assert q[k] == p[k]; }
      }
    }
    if i < |p| {
      WeightedSumAppend(p, c, i + 1);
      assert q[i] == p[i];
    } else {
      assert q[i] == c;
    }
  }

  /** The check digit makes the number Luhn-valid, and it is the only digit that does. */
  lemma CheckDigitCompletes(partial: string, d: int)
    requires AllDigits(partial) && 0 <= d <= 9
    ensures LuhnValid(partial + [DigitChar(d)]) <==> d == CheckDigit(partial)
  {
    WeightedSumAppend(partial, DigitChar(d), 0);
  }

  /** The classic example of the algorithm: 7992739871 is completed by 3. */
  lemma CheckDigitExample()
    ensures CheckDigit("7992739871") == 3
  {
  }

  /** The digits GenerarNumeroAleatorio produces from n raw draws starting at `from`. */
  function RandomDigits(draws: nat -> nat, from: nat, n: nat): (s: string)
    ensures |s| == n && AllDigits(s)
  {
    if n == 0 then "" else RandomDigits(draws, from, n - 1) + [DigitChar(NextValue(0, 10, draws(from + n - 1)))]
  }

  /** The exception GerarPan throws before generating anything, if any. */
  function PanArgumentError(bin: string, tamanho: int): (e: Option<Error>)
    ensures e.None? <==> !IsBlank(bin) && |bin| >= 6 && 13 <= tamanho <= 19
  {
    if IsBlank(bin) || |bin| < 6 then Some(Argument("BIN deve ter no mínimo 6 dígitos"))
    else if tamanho < 13 || tamanho > 19 then Some(Argument("Tamanho do PAN deve estar entre 13 e 19"))
    else None
  }

  class PanGenerator {
    const random: RandomSource

    constructor (random: RandomSource)
      ensures this.random == random
    {
      this.random := random;
    }

    /** GerarPan: BIN, then random digits up to one short of the requested length,
        then the check digit. The BIN's own characters are only checked as digits
        by the check-digit computation, after the random digits are drawn; a BIN of
        `tamanho` characters or more gets no random digits at all. */
    method GerarPan(bin: string, tamanho: int) returns (r: Result<string>)
      modifies random
      ensures PanArgumentError(bin, tamanho).Some? ==>
                r == Failure(PanArgumentError(bin, tamanho).value) && random.used == old(random.used)
      ensures PanArgumentError(bin, tamanho).None? ==>
                var bodyLength := Max(0, tamanho - |bin| - 1);
                && random.used == old(random.used) + bodyLength
                && (AllDigits(bin) <==> r.Success?)
                && (r.Failure? ==> r.error == Format)
                && (r.Success? ==>
                      var pan := r.value;
                      && |pan| == Max(tamanho, |bin| + 1)
                      && pan[..|bin|] == bin
                      && pan[|bin|..|pan| - 1] == RandomDigits(random.draws, old(random.used), bodyLength)
                      && LuhnValid(pan))
    {
      var e := PanArgumentError(bin, tamanho);
      if e.Some? {
        return Failure(e.value);
      }
      var body := GenerarNumeroAleatorio(tamanho - |bin| - 1);
      var partial := bin + body;
      var checkDigit := CalcularDigitoLuhn(partial);
      AllDigitsConcat(bin, body);
      if checkDigit.Failure? {
        return Failure(checkDigit.error);
      }
      var pan := partial + [DigitChar(checkDigit.value)];
      CheckDigitCompletes(partial, checkDigit.value);
      assert pan[..|bin|] == bin;
      assert pan[|bin|..|pan| - 1] == body;
      return Success(pan);
    }

    /** GerarCvv: Next(100, 999) written in decimal, so three digits valued 100..998. */
    method GerarCvv() returns (cvv: string)
      modifies random
      ensures random.used == old(random.used) + 1
      ensures cvv == NatToString(NextValue(100, 999, random.draws(old(random.used))))
      ensures |cvv| == 3 && 100 <= NumeralValue(cvv) <= 998
    {
      var n := random.Next(100, 999);
      cvv := NatToString(n);
      NatToStringThreeDigits(n);
      NatToStringValue(n);
    }

    /** GenerarNumeroAleatorio: one random decimal digit per position, none for a
        length of zero or less. */
    method GenerarNumeroAleatorio(length: int) returns (s: string)
      modifies random
      ensures random.used == old(random.used) + Max(0, length)
      ensures s == RandomDigits(random.draws, old(random.used), Max(0, length))
    {
      s := "";
      var i := 0;
      while i < length
        invariant 0 <= i <= Max(0, length)
        invariant random.used == old(random.used) + i
        invariant s == RandomDigits(random.draws, old(random.used), i)
      {
        var d := random.Next(0, 10);
        s := s + [DigitChar(d)];
        i := i + 1;
      }
    }

    /** CalcularDigitoLuhn: walks the number from the right, doubling the rightmost
        digit and every second one; a character other than '0'..'9' makes int.Parse
        throw. */
    method CalcularDigitoLuhn(partial: string) returns (r: Result<int>)
      ensures AllDigits(partial) ==> r == Success(CheckDigit(partial))
      ensures !AllDigits(partial) ==> r == Failure(Format)
    {
      var sum := 0;
      var alternado := true;
      var i := |partial| - 1;
      while i >= 0
        invariant -1 <= i < |partial|
        invariant forall k :: i < k < |partial| ==> IsAsciiDigit(partial[k])
        invariant alternado == ((|partial| - 1 - i) % 2 == 0)
        invariant AllDigits(partial) ==> sum == WeightedSum(partial, i + 1, true)
      {
        if !IsAsciiDigit(partial[i]) {
          return Failure(Format);
        }
        var digito := DigitValue(partial[i]);
        if alternado {
          digito := digito * 2;
          if digito > 9 {
            digito := digito - 9;
          }
        }
        sum := sum + digito;
        alternado := !alternado;
        i := i - 1;
      }
      return Success((10 - sum % 10) % 10);
    }
  }
}
