/**
 * The periodic table of the charge script: `PSE` maps an atomic number to its
 * element symbol, `PSE_SYMBOLS` maps the number to the lower-case symbol and
 * `PSE_NUMBERS` maps the lower-case symbol back to the number.
 */
module Elements {
  import opened Results
  import opened Text

  /** The largest key of `PSE`; its keys are 0 ("X", a dummy atom) to 118. */
  const MaxNumber := 118

  /** `PSE[n]`, for the keys 0 to 118, looked up by bisection on n. */
  function Symbol(n: int): string
    requires 0 <= n <= MaxNumber
  {
    if n < 59 then
      if n < 29 then
        if n < 14 then
          if n < 7 then
            if n < 3 then
              if n < 1 then
                "X"
              else
                if n < 2 then
                  "H"
                else
                  "He"
            else
              if n < 5 then
                if n < 4 then
                  "Li"
                else
                  "Be"
              else
                if n < 6 then
                  "B"
                else
                  "C"
          else
            if n < 10 then
              if n < 8 then
                "N"
              else
                if n < 9 then
                  "O"
                else
                  "F"
            else
              if n < 12 then
                if n < 11 then
                  "Ne"
                else
                  "Na"
              else
                if n < 13 then
                  "Mg"
                else
                  "Al"
        else
          if n < 21 then
            if n < 17 then
              if n < 15 then
                "Si"
              else
                if n < 16 then
                  "P"
                else
                  "S"
            else
              if n < 19 then
                if n < 18 then
                  "Cl"
                else
                  "Ar"
              else
                if n < 20 then
                  "K"
                else
                  "Ca"
          else
            if n < 25 then
              if n < 23 then
                if n < 22 then
                  "Sc"
                else
                  "Ti"
              else
                if n < 24 then
                  "V"
                else
                  "Cr"
            else
              if n < 27 then
                if n < 26 then
                  "Mn"
                else
                  "Fe"
              else
                if n < 28 then
                  "Co"
                else
                  "Ni"
      else
        if n < 44 then
          if n < 36 then
            if n < 32 then
              if n < 30 then
                "Cu"
              else
                if n < 31 then
                  "Zn"
                else
                  "Ga"
            else
              if n < 34 then
                if n < 33 then
                  "Ge"
                else
                  "As"
              else
                if n < 35 then
                  "Se"
                else
                  "Br"
          else
            if n < 40 then
              if n < 38 then
                if n < 37 then
                  "Kr"
                else
                  "Rb"
              else
                if n < 39 then
                  "Sr"
                else
                  "Y"
            else
              if n < 42 then
                if n < 41 then
                  "Zr"
                else
                  "Nb"
              else
                if n < 43 then
                  "Mo"
                else
                  "Tc"
        else
          if n < 51 then
            if n < 47 then
              if n < 45 then
                "Ru"
              else
                if n < 46 then
                  "Rh"
                else
                  "Pd"
            else
              if n < 49 then
                if n < 48 then
                  "Ag"
                else
                  "Cd"
              else
                if n < 50 then
                  "In"
                else
                  "Sn"
          else
            if n < 55 then
              if n < 53 then
                if n < 52 then
                  "Sb"
                else
                  "Te"
              else
                if n < 54 then
                  "I"
                else
                  "Xe"
            else
              if n < 57 then
                if n < 56 then
                  "Cs"
                else
                  "Ba"
              else
                if n < 58 then
                  "La"
                else
                  "Ce"
    else
      if n < 89 then
        if n < 74 then
          if n < 66 then
            if n < 62 then
              if n < 60 then
                "Pr"
              else
                if n < 61 then
                  "Nd"
                else
                  "Pm"
            else
              if n < 64 then
                if n < 63 then
                  "Sm"
                else
                  "Eu"
              else
                if n < 65 then
                  "Gd"
                else
                  "Tb"
          else
            if n < 70 then
              if n < 68 then
                if n < 67 then
                  "Dy"
                else
                  "Ho"
              else
                if n < 69 then
                  "Er"
                else
                  "Tm"
            else
              if n < 72 then
                if n < 71 then
                  "Yb"
                else
                  "Lu"
              else
                if n < 73 then
                  "Hf"
                else
                  "Ta"
        else
          if n < 81 then
            if n < 77 then
              if n < 75 then
                "W"
              else
                if n < 76 then
                  "Re"
                else
                  "Os"
            else
              if n < 79 then
                if n < 78 then
                  "Ir"
                else
                  "Pt"
              else
                if n < 80 then
                  "Au"
                else
                  "Hg"
          else
            if n < 85 then
              if n < 83 then
                if n < 82 then
                  "Tl"
                else
                  "Pb"
              else
                if n < 84 then
                  "Bi"
                else
                  "Po"
            else
              if n < 87 then
                if n < 86 then
                  "At"
                else
                  "Rn"
              else
                if n < 88 then
                  "Fr"
                else
                  "Ra"
      else
        if n < 104 then
          if n < 96 then
            if n < 92 then
              if n < 90 then
                "Ac"
              else
                if n < 91 then
                  "Th"
                else
                  "Pa"
            else
              if n < 94 then
                if n < 93 then
                  "U"
                else
                  "Np"
              else
                if n < 95 then
                  "Pu"
                else
                  "Am"
          else
            if n < 100 then
              if n < 98 then
                if n < 97 then
                  "Cm"
                else
                  "Bk"
              else
                if n < 99 then
                  "Cf"
                else
                  "Es"
            else
              if n < 102 then
                if n < 101 then
                  "Fm"
                else
                  "Md"
              else
                if n < 103 then
                  "No"
                else
                  "Lr"
        else
          if n < 111 then
            if n < 107 then
              if n < 105 then
                "Rf"
              else
                if n < 106 then
                  "Db"
                else
                  "Sg"
            else
              if n < 109 then
                if n < 108 then
                  "Bh"
                else
                  "Hs"
              else
                if n < 110 then
                  "Mt"
                else
                  "Ds"
          else
            if n < 115 then
              if n < 113 then
                if n < 112 then
                  "Rg"
                else
                  "Cn"
              else
                if n < 114 then
                  "Nh"
                else
                  "Fl"
            else
              if n < 117 then
                if n < 116 then
                  "Mc"
                else
                  "Lv"
              else
                if n < 118 then
                  "Ts"
                else
                  "Og"
  }

  /** `PSE_SYMBOLS = {v: k.lower() for v, k in PSE.items()}`. */
  function PseSymbols(): map<int, string> {
    map n | 0 <= n <= MaxNumber :: Lower(Symbol(n))
  }

  /** The lower-case symbol of element `n`; "" for a number that is not a key of `PSE`. */
  function LowerSymbol(n: nat): string {
    if n <= MaxNumber then Lower(Symbol(n)) else ""
  }

  /**
   * A dict comprehension `{key(v): v ...}` over the values 0 to m - 1 in
   * order; a later value overwrites an earlier one with the same key.
   */
  function Inverse<K>(key: nat -> K, m: nat): map<K, nat> {
    if m == 0 then map[] else Inverse(key, m - 1)[key(m - 1) := m - 1]
  }

  /** `PSE_NUMBERS = {k.lower(): v for v, k in PSE.items()}`, the items taken in key order. */
  function PseNumbers(): map<string, nat> {
    Inverse(LowerSymbol, MaxNumber + 1)
  }

  /**
   * The atomic number of a lower-case element symbol, looked up letter by
   * letter: an independent reading of the periodic table.
   */
  function NumberOf(symbol: string): Option<int> {
    if |symbol| == 1 then
      match symbol[0]
      case 'b' => Some(5)
      case 'c' => Some(6)
      case 'f' => Some(9)
      case 'h' => Some(1)
      case 'i' => Some(53)
      case 'k' => Some(19)
      case 'n' => Some(7)
      case 'o' => Some(8)
      case 'p' => Some(15)
      case 's' => Some(16)
      case 'u' => Some(92)
      case 'v' => Some(23)
      case 'w' => Some(74)
      case 'x' => Some(0)
      case 'y' => Some(39)
      case _ => None
    else if |symbol| == 2 then
      match symbol[0]
      case 'a' =>
        (match symbol[1]
         case 'c' => Some(89)
         case 'g' => Some(47)
         case 'l' => Some(13)
         case 'm' => Some(95)
         case 'r' => Some(18)
         case 's' => Some(33)
         case 't' => Some(85)
         case 'u' => Some(79)
         case _ => None)
      case 'b' =>
        (match symbol[1]
         case 'a' => Some(56)
         case 'e' => Some(4)
         case 'h' => Some(107)
         case 'i' => Some(83)
         case 'k' => Some(97)
         case 'r' => Some(35)
         case _ => None)
      case 'c' =>
        (match symbol[1]
         case 'a' => Some(20)
         case 'd' => Some(48)
         case 'e' => Some(58)
         case 'f' => Some(98)
         case 'l' => Some(17)
         case 'm' => Some(96)
         case 'n' => Some(112)
         case 'o' => Some(27)
         case 'r' => Some(24)
         case 's' => Some(55)
         case 'u' => Some(29)
         case _ => None)
      case 'd' =>
        (match symbol[1]
         case 'b' => Some(105)
         case 's' => Some(110)
         case 'y' => Some(66)
         case _ => None)
      case 'e' =>
        (match symbol[1]
         case 'r' => Some(68)
         case 's' => Some(99)
         case 'u' => Some(63)
         case _ => None)
      case 'f' =>
        (match symbol[1]
         case 'e' => Some(26)
         case 'l' => Some(114)
         case 'm' => Some(100)
         case 'r' => Some(87)
         case _ => None)
      case 'g' =>
        (match symbol[1]
         case 'a' => Some(31)
         case 'd' => Some(64)
         case 'e' => Some(32)
         case _ => None)
      case 'h' =>
        (match symbol[1]
         case 'e' => Some(2)
         case 'f' => Some(72)
         case 'g' => Some(80)
         case 'o' => Some(67)
         case 's' => Some(108)
         case _ => None)
      case 'i' =>
        (match symbol[1]
         case 'n' => Some(49)
         case 'r' => Some(77)
         case _ => None)
      case 'k' =>
        (match symbol[1]
         case 'r' => Some(36)
         case _ => None)
      case 'l' =>
        (match symbol[1]
         case 'a' => Some(57)
         case 'i' => Some(3)
         case 'r' => Some(103)
         case 'u' => Some(71)
         case 'v' => Some(116)
         case _ => None)
      case 'm' =>
        (match symbol[1]
         case 'c' => Some(115)
         case 'd' => Some(101)
         case 'g' => Some(12)
         case 'n' => Some(25)
         case 'o' => Some(42)
         case 't' => Some(109)
         case _ => None)
      case 'n' =>
        (match symbol[1]
         case 'a' => Some(11)
         case 'b' => Some(41)
         case 'd' => Some(60)
         case 'e' => Some(10)
         case 'h' => Some(113)
         case 'i' => Some(28)
         case 'o' => Some(102)
         case 'p' => Some(93)
         case _ => None)
      case 'o' =>
        (match symbol[1]
         case 'g' => Some(118)
         case 's' => Some(76)
         case _ => None)
      case 'p' =>
        (match symbol[1]
         case 'a' => Some(91)
         case 'b' => Some(82)
         case 'd' => Some(46)
         case 'm' => Some(61)
         case 'o' => Some(84)
         case 'r' => Some(59)
         case 't' => Some(78)
         case 'u' => Some(94)
         case _ => None)
      case 'r' =>
        (match symbol[1]
         case 'a' => Some(88)
         case 'b' => Some(37)
         case 'e' => Some(75)
         case 'f' => Some(104)
         case 'g' => Some(111)
         case 'h' => Some(45)
         case 'n' => Some(86)
         case 'u' => Some(44)
         case _ => None)
      case 's' =>
        (match symbol[1]
         case 'b' => Some(51)
         case 'c' => Some(21)
         case 'e' => Some(34)
         case 'g' => Some(106)
         case 'i' => Some(14)
         case 'm' => Some(62)
         case 'n' => Some(50)
         case 'r' => Some(38)
         case _ => None)
      case 't' =>
        (match symbol[1]
         case 'a' => Some(73)
         case 'b' => Some(65)
         case 'c' => Some(43)
         case 'e' => Some(52)
         case 'h' => Some(90)
         case 'i' => Some(22)
         case 'l' => Some(81)
         case 'm' => Some(69)
         case 's' => Some(117)
         case _ => None)
      case 'x' =>
        (match symbol[1]
         case 'e' => Some(54)
         case _ => None)
      case 'y' =>
        (match symbol[1]
         case 'b' => Some(70)
         case _ => None)
      case 'z' =>
        (match symbol[1]
         case 'n' => Some(30)
         case 'r' => Some(40)
         case _ => None)
      case _ => None
    else None
  }

  lemma NumberOfSymbols0(n: int)
    requires 0 <= n < 6
    ensures NumberOf(Lower(Symbol(n))) == Some(n)
  {
    if n == 0 {
      assert Symbol(0) == "X";
    }
    else if n == 1 {
      assert Symbol(1) == "H";
    }
    else if n == 2 {
      assert Symbol(2) == "He";
    }
    else if n == 3 {
      assert Symbol(3) == "Li";
    }
    else if n == 4 {
      assert Symbol(4) == "Be";
    }
    else if n == 5 {
      assert Symbol(5) == "B";
    }
  }

  lemma NumberOfSymbols6(n: int)
    requires 6 <= n < 12
    ensures NumberOf(Lower(Symbol(n))) == Some(n)
  {
    if n == 6 {
      assert Symbol(6) == "C";
    }
    else if n == 7 {
      assert Symbol(7) == "N";
    }
    else if n == 8 {
      assert Symbol(8) == "O";
    }
    else if n == 9 {
      assert Symbol(9) == "F";
    }
    else if n == 10 {
      assert Symbol(10) == "Ne";
    }
    else if n == 11 {
      assert Symbol(11) == "Na";
    }
  }

  lemma NumberOfSymbols12(n: int)
    requires 12 <= n < 18
    ensures NumberOf(Lower(Symbol(n))) == Some(n)
  {
    if n == 12 {
      assert Symbol(12) == "Mg";
    }
    else if n == 13 {
      assert Symbol(13) == "Al";
    }
    else if n == 14 {
      assert Symbol(14) == "Si";
    }
    else if n == 15 {
      assert Symbol(15) == "P";
    }
    else if n == 16 {
      assert Symbol(16) == "S";
    }
    else if n == 17 {
      assert Symbol(17) == "Cl";
    }
  }

  lemma NumberOfSymbols18(n: int)
    requires 18 <= n < 24
    ensures NumberOf(Lower(Symbol(n))) == Some(n)
  {
    if n == 18 {
      assert Symbol(18) == "Ar";
    }
    else if n == 19 {
      assert Symbol(19) == "K";
    }
    else if n == 20 {
      assert Symbol(20) == "Ca";
    }
    else if n == 21 {
      assert Symbol(21) == "Sc";
    }
    else if n == 22 {
      assert Symbol(22) == "Ti";
    }
    else if n == 23 {
      assert Symbol(23) == "V";
    }
  }

  lemma NumberOfSymbols24(n: int)
    requires 24 <= n < 30
    ensures NumberOf(Lower(Symbol(n))) == Some(n)
  {
    if n == 24 {
      assert Symbol(24) == "Cr";
    }
    else if n == 25 {
      assert Symbol(25) == "Mn";
    }
    else if n == 26 {
      assert Symbol(26) == "Fe";
    }
    else if n == 27 {
      assert Symbol(27) == "Co";
    }
    else if n == 28 {
      assert Symbol(28) == "Ni";
    }
    else if n == 29 {
      assert Symbol(29) == "Cu";
    }
  }

  lemma NumberOfSymbols30(n: int)
    requires 30 <= n < 36
    ensures NumberOf(Lower(Symbol(n))) == Some(n)
  {
    if n == 30 {
      assert Symbol(30) == "Zn";
    }
    else if n == 31 {
      assert Symbol(31) == "Ga";
    }
    else if n == 32 {
      assert Symbol(32) == "Ge";
    }
    else if n == 33 {
      assert Symbol(33) == "As";
    }
    else if n == 34 {
      assert Symbol(34) == "Se";
    }
    else if n == 35 {
      assert Symbol(35) == "Br";
    }
  }

  lemma NumberOfSymbols36(n: int)
    requires 36 <= n < 42
    ensures NumberOf(Lower(Symbol(n))) == Some(n)
  {
    if n == 36 {
      assert Symbol(36) == "Kr";
    }
    else if n == 37 {
      assert Symbol(37) == "Rb";
    }
    else if n == 38 {
      assert Symbol(38) == "Sr";
    }
    else if n == 39 {
      assert Symbol(39) == "Y";
    }
    else if n == 40 {
      assert Symbol(40) == "Zr";
    }
    else if n == 41 {
      assert Symbol(41) == "Nb";
    }
  }

  lemma NumberOfSymbols42(n: int)
    requires 42 <= n < 48
    ensures NumberOf(Lower(Symbol(n))) == Some(n)
  {
    if n == 42 {
      assert Symbol(42) == "Mo";
    }
    else if n == 43 {
      assert Symbol(43) == "Tc";
    }
    else if n == 44 {
      assert Symbol(44) == "Ru";
    }
    else if n == 45 {
      assert Symbol(45) == "Rh";
    }
    else if n == 46 {
      assert Symbol(46) == "Pd";
    }
    else if n == 47 {
      assert Symbol(47) == "Ag";
    }
  }

  lemma NumberOfSymbols48(n: int)
    requires 48 <= n < 54
    ensures NumberOf(Lower(Symbol(n))) == Some(n)
  {
    if n == 48 {
      assert Symbol(48) == "Cd";
    }
    else if n == 49 {
      assert Symbol(49) == "In";
    }
    else if n == 50 {
      assert Symbol(50) == "Sn";
    }
    else if n == 51 {
      assert Symbol(51) == "Sb";
    }
    else if n == 52 {
      assert Symbol(52) == "Te";
    }
    else if n == 53 {
      assert Symbol(53) == "I";
    }
  }

  lemma NumberOfSymbols54(n: int)
    requires 54 <= n < 60
    ensures NumberOf(Lower(Symbol(n))) == Some(n)
  {
    if n == 54 {
      assert Symbol(54) == "Xe";
    }
    else if n == 55 {
      assert Symbol(55) == "Cs";
    }
    else if n == 56 {
      assert Symbol(56) == "Ba";
    }
    else if n == 57 {
      assert Symbol(57) == "La";
    }
    else if n == 58 {
      assert Symbol(58) == "Ce";
    }
    else if n == 59 {
      assert Symbol(59) == "Pr";
    }
  }

  lemma NumberOfSymbols60(n: int)
    requires 60 <= n < 66
    ensures NumberOf(Lower(Symbol(n))) == Some(n)
  {
    if n == 60 {
      assert Symbol(60) == "Nd";
    }
    else if n == 61 {
      assert Symbol(61) == "Pm";
    }
    else if n == 62 {
      assert Symbol(62) == "Sm";
    }
    else if n == 63 {
      assert Symbol(63) == "Eu";
    }
    else if n == 64 {
      assert Symbol(64) == "Gd";
    }
    else if n == 65 {
      assert Symbol(65) == "Tb";
    }
  }

  lemma NumberOfSymbols66(n: int)
    requires 66 <= n < 72
    ensures NumberOf(Lower(Symbol(n))) == Some(n)
  {
    if n == 66 {
      assert Symbol(66) == "Dy";
    }
    else if n == 67 {
      assert Symbol(67) == "Ho";
    }
    else if n == 68 {
      assert Symbol(68) == "Er";
    }
    else if n == 69 {
      assert Symbol(69) == "Tm";
    }
    else if n == 70 {
      assert Symbol(70) == "Yb";
    }
    else if n == 71 {
      assert Symbol(71) == "Lu";
    }
  }

  lemma NumberOfSymbols72(n: int)
    requires 72 <= n < 78
    ensures NumberOf(Lower(Symbol(n))) == Some(n)
  {
    if n == 72 {
      assert Symbol(72) == "Hf";
    }
    else if n == 73 {
      assert Symbol(73) == "Ta";
    }
    else if n == 74 {
      assert Symbol(74) == "W";
    }
    else if n == 75 {
      assert Symbol(75) == "Re";
    }
    else if n == 76 {
      assert Symbol(76) == "Os";
    }
    else if n == 77 {
      assert Symbol(77) == "Ir";
    }
  }

  lemma NumberOfSymbols78(n: int)
    requires 78 <= n < 84
    ensures NumberOf(Lower(Symbol(n))) == Some(n)
  {
    if n == 78 {
      assert Symbol(78) == "Pt";
    }
    else if n == 79 {
      assert Symbol(79) == "Au";
    }
    else if n == 80 {
      assert Symbol(80) == "Hg";
    }
    else if n == 81 {
      assert Symbol(81) == "Tl";
    }
    else if n == 82 {
      assert Symbol(82) == "Pb";
    }
    else if n == 83 {
      assert Symbol(83) == "Bi";
    }
  }

  lemma NumberOfSymbols84(n: int)
    requires 84 <= n < 90
    ensures NumberOf(Lower(Symbol(n))) == Some(n)
  {
    if n == 84 {
      assert Symbol(84) == "Po";
    }
    else if n == 85 {
      assert Symbol(85) == "At";
    }
    else if n == 86 {
      assert Symbol(86) == "Rn";
    }
    else if n == 87 {
      assert Symbol(87) == "Fr";
    }
    else if n == 88 {
      assert Symbol(88) == "Ra";
    }
    else if n == 89 {
      assert Symbol(89) == "Ac";
    }
  }

  lemma NumberOfSymbols90(n: int)
    requires 90 <= n < 96
    ensures NumberOf(Lower(Symbol(n))) == Some(n)
  {
    if n == 90 {
      assert Symbol(90) == "Th";
    }
    else if n == 91 {
      assert Symbol(91) == "Pa";
    }
    else if n == 92 {
      assert Symbol(92) == "U";
    }
    else if n == 93 {
      assert Symbol(93) == "Np";
    }
    else if n == 94 {
      assert Symbol(94) == "Pu";
    }
    else if n == 95 {
      assert Symbol(95) == "Am";
    }
  }

  lemma NumberOfSymbols96(n: int)
    requires 96 <= n < 102
    ensures NumberOf(Lower(Symbol(n))) == Some(n)
  {
    if n == 96 {
      assert Symbol(96) == "Cm";
    }
    else if n == 97 {
      assert Symbol(97) == "Bk";
    }
    else if n == 98 {
      assert Symbol(98) == "Cf";
    }
    else if n == 99 {
      assert Symbol(99) == "Es";
    }
    else if n == 100 {
      assert Symbol(100) == "Fm";
    }
    else if n == 101 {
      assert Symbol(101) == "Md";
    }
  }

  lemma NumberOfSymbols102(n: int)
    requires 102 <= n < 108
    ensures NumberOf(Lower(Symbol(n))) == Some(n)
  {
    if n == 102 {
      assert Symbol(102) == "No";
    }
    else if n == 103 {
      assert Symbol(103) == "Lr";
    }
    else if n == 104 {
      assert Symbol(104) == "Rf";
    }
    else if n == 105 {
      assert Symbol(105) == "Db";
    }
    else if n == 106 {
      assert Symbol(106) == "Sg";
    }
    else if n == 107 {
      assert Symbol(107) == "Bh";
    }
  }

  lemma NumberOfSymbols108(n: int)
    requires 108 <= n < 114
    ensures NumberOf(Lower(Symbol(n))) == Some(n)
  {
    if n == 108 {
      assert Symbol(108) == "Hs";
    }
    else if n == 109 {
      assert Symbol(109) == "Mt";
    }
    else if n == 110 {
      assert Symbol(110) == "Ds";
    }
    else if n == 111 {
      assert Symbol(111) == "Rg";
    }
    else if n == 112 {
      assert Symbol(112) == "Cn";
    }
    else if n == 113 {
      assert Symbol(113) == "Nh";
    }
  }

  lemma NumberOfSymbols114(n: int)
    requires 114 <= n < 119
    ensures NumberOf(Lower(Symbol(n))) == Some(n)
  {
    if n == 114 {
      assert Symbol(114) == "Fl";
    }
    else if n == 115 {
      assert Symbol(115) == "Mc";
    }
    else if n == 116 {
      assert Symbol(116) == "Lv";
    }
    else if n == 117 {
      assert Symbol(117) == "Ts";
    }
    else if n == 118 {
      assert Symbol(118) == "Og";
    }
  }

  /** Looking up the lower-case symbol of element `n` gives back `n`. */
  lemma NumberOfSymbol(n: int)
    requires 0 <= n <= MaxNumber
    ensures NumberOf(Lower(Symbol(n))) == Some(n)
  {
    if n < 6 {
      NumberOfSymbols0(n);
    }
    else if n < 12 {
      NumberOfSymbols6(n);
    }
    else if n < 18 {
      NumberOfSymbols12(n);
    }
    else if n < 24 {
      NumberOfSymbols18(n);
    }
    else if n < 30 {
      NumberOfSymbols24(n);
    }
    else if n < 36 {
      NumberOfSymbols30(n);
    }
    else if n < 42 {
      NumberOfSymbols36(n);
    }
    else if n < 48 {
      NumberOfSymbols42(n);
    }
    else if n < 54 {
      NumberOfSymbols48(n);
    }
    else if n < 60 {
      NumberOfSymbols54(n);
    }
    else if n < 66 {
      NumberOfSymbols60(n);
    }
    else if n < 72 {
      NumberOfSymbols66(n);
    }
    else if n < 78 {
      NumberOfSymbols72(n);
    }
    else if n < 84 {
      NumberOfSymbols78(n);
    }
    else if n < 90 {
      NumberOfSymbols84(n);
    }
    else if n < 96 {
      NumberOfSymbols90(n);
    }
    else if n < 102 {
      NumberOfSymbols96(n);
    }
    else if n < 108 {
      NumberOfSymbols102(n);
    }
    else if n < 114 {
      NumberOfSymbols108(n);
    }
    else {
      NumberOfSymbols114(n);
    }
  }

  /** No two elements share a lower-case symbol. */
  lemma SymbolsDistinct(j: int, k: int)
    requires 0 <= j <= MaxNumber && 0 <= k <= MaxNumber && j != k
    ensures Lower(Symbol(j)) != Lower(Symbol(k))
  {
    NumberOfSymbol(j);
    NumberOfSymbol(k);
  }

  /**
   * When no two of the values 0 to m - 1 share a key, the comprehension maps
   * the key of each of them to that value, and holds nothing else.
   */
  lemma {:induction false} InverseInverts<K>(key: nat -> K, m: nat)
    requires forall j: nat, k: nat :: j < k < m ==> key(j) != key(k)
    ensures forall k: nat :: k < m ==> key(k) in Inverse(key, m) && Inverse(key, m)[key(k)] == k
    ensures forall x :: x in Inverse(key, m) ==> Inverse(key, m)[x] < m && key(Inverse(key, m)[x]) == x
  {
    if m > 0 {
      InverseInverts(key, m - 1);
    }
  }

  /**
   * `PSE_NUMBERS[PSE_SYMBOLS[n]] == n` for every key n of `PSE`, and
   * `PSE_SYMBOLS[PSE_NUMBERS[s]] == s` for every key s of `PSE_NUMBERS`; both
   * maps hold lower-case symbols only, and `PSE_NUMBERS` agrees with the
   * letter-by-letter lookup.
   */
  lemma PseRoundTrip()
    ensures forall n :: n in PseSymbols() <==> 0 <= n <= MaxNumber
    ensures forall n :: n in PseSymbols() ==> PseSymbols()[n] in PseNumbers() && PseNumbers()[PseSymbols()[n]] == n
    ensures forall s :: s in PseNumbers() ==> PseNumbers()[s] in PseSymbols() && PseSymbols()[PseNumbers()[s]] == s
    ensures forall s :: s in PseNumbers() ==> NumberOf(s) == Some(PseNumbers()[s])
    ensures forall s, i :: s in PseNumbers() && 0 <= i < |s| ==> !IsUpper(s[i])
    ensures forall n, i :: n in PseSymbols() && 0 <= i < |PseSymbols()[n]| ==> !IsUpper(PseSymbols()[n][i])
  {
    forall j: nat, k: nat | j < k < MaxNumber + 1 ensures LowerSymbol(j) != LowerSymbol(k) {
      SymbolsDistinct(j, k);
    }
    InverseInverts(LowerSymbol, MaxNumber + 1);
    forall n | n in PseSymbols() ensures PseSymbols()[n] == LowerSymbol(n) && LowerSymbol(n) in PseNumbers() {
    }
    forall s | s in PseNumbers() ensures NumberOf(s) == Some(PseNumbers()[s]) {
      NumberOfSymbol(PseNumbers()[s]);
    }
  }
}
