/** The 64 constants of MD5: in the lines of the program, and in the table of the standard. */
module Md5Tables {

  type constant = c: int | 0 <= c < 0x1_0000_0000

  // lines 112 to 178, four at a time
  function LineConstants(n: nat): (c: seq<constant>)
    ensures |c| == 4
  {
    match n
    case 0 => [0xd76aa478, 0xe8c7b756, 0x242070db, 0xc1bdceee]
    case 1 => [0xf57c0faf, 0x4787c62a, 0xa8304613, 0xfd469501]
    case 2 => [0x698098d8, 0x8b44f7af, 0xffff5bb1, 0x895cd7be]
    case 3 => [0x6b901122, 0xfd987193, 0xa679438e, 0x49b40821]
    case 4 => [0xf61e2562, 0xc040b340, 0x265e5a51, 0xe9b6c7aa]
    case 5 => [0xd62f105d, 0x02441453, 0xd8a1e681, 0xe7d3fbc8]
    case 6 => [0x21e1cde6, 0xc33707d6, 0xf4d50d87, 0x455a14ed]
    case 7 => [0xa9e3e905, 0xfcefa3f8, 0x676f02d9, 0x8d2a4c8a]
    case 8 => [0xfffa3942, 0x8771f681, 0x6d9d6122, 0xfde5380c]
    case 9 => [0xa4beea44, 0x4bdecfa9, 0xf6bb4b60, 0xbebfbc70]
    case 10 => [0x289b7ec6, 0xeaa127fa, 0xd4ef3085, 0x04881d05]
    case 11 => [0xd9d4d039, 0xe6db99e5, 0x1fa27cf8, 0xc4ac5665]
    case 12 => [0xf4292244, 0x432aff97, 0xab9423a7, 0xfc93a039]
    case 13 => [0x655b59c3, 0x8f0ccc92, 0xffeff47d, 0x85845dd1]
    case 14 => [0x6fa87e4f, 0xfe2ce6e0, 0xa3014314, 0x4e0811a1]
    case _ => [0xf7537e82, 0xbd3af235, 0x2ad7d2bb, 0xeb86d391]
  }

  function LineConstant(i: nat): constant {
    LineConstants(i / 4)[i % 4]
  }

  // the table T of section 3.4 of RFC 1321, a round at a time
  const T1: seq<seq<constant>> := [
    [0xd76aa478, 0xe8c7b756, 0x242070db, 0xc1bdceee],
    [0xf57c0faf, 0x4787c62a, 0xa8304613, 0xfd469501],
    [0x698098d8, 0x8b44f7af, 0xffff5bb1, 0x895cd7be],
    [0x6b901122, 0xfd987193, 0xa679438e, 0x49b40821]
  ]

  const T2: seq<seq<constant>> := [
    [0xf61e2562, 0xc040b340, 0x265e5a51, 0xe9b6c7aa],
    [0xd62f105d, 0x02441453, 0xd8a1e681, 0xe7d3fbc8],
    [0x21e1cde6, 0xc33707d6, 0xf4d50d87, 0x455a14ed],
    [0xa9e3e905, 0xfcefa3f8, 0x676f02d9, 0x8d2a4c8a]
  ]

  const T3: seq<seq<constant>> := [
    [0xfffa3942, 0x8771f681, 0x6d9d6122, 0xfde5380c],
    [0xa4beea44, 0x4bdecfa9, 0xf6bb4b60, 0xbebfbc70],
    [0x289b7ec6, 0xeaa127fa, 0xd4ef3085, 0x04881d05],
    [0xd9d4d039, 0xe6db99e5, 0x1fa27cf8, 0xc4ac5665]
  ]

  const T4: seq<seq<constant>> := [
    [0xf4292244, 0x432aff97, 0xab9423a7, 0xfc93a039],
    [0x655b59c3, 0x8f0ccc92, 0xffeff47d, 0x85845dd1],
    [0x6fa87e4f, 0xfe2ce6e0, 0xa3014314, 0x4e0811a1],
    [0xf7537e82, 0xbd3af235, 0x2ad7d2bb, 0xeb86d391]
  ]

  function TableRow(n: nat): seq<constant>
    requires n < 16
  {
    if n < 4 then T1[n] else if n < 8 then T2[n - 4] else if n < 12 then T3[n - 8] else T4[n - 12]
  }

  function Table(i: nat): constant {
    if i < 64 && i % 4 < |TableRow(i / 4)| then TableRow(i / 4)[i % 4] else 0
  }

  lemma FirstConstants()
    ensures LineConstants(0) == T1[0] && LineConstants(1) == T1[1]
    ensures LineConstants(2) == T1[2] && LineConstants(3) == T1[3]
  {
  }

  lemma SecondConstants()
    ensures LineConstants(4) == T2[0] && LineConstants(5) == T2[1]
    ensures LineConstants(6) == T2[2] && LineConstants(7) == T2[3]
  {
  }

  lemma ThirdConstants()
    ensures LineConstants(8) == T3[0] && LineConstants(9) == T3[1]
    ensures LineConstants(10) == T3[2] && LineConstants(11) == T3[3]
  {
  }

  lemma FourthConstants()
    ensures LineConstants(12) == T4[0] && LineConstants(13) == T4[1]
    ensures LineConstants(14) == T4[2] && LineConstants(15) == T4[3]
  {
  }

  lemma RowOfConstants(n: nat)
    requires n < 16
    ensures LineConstants(n) == TableRow(n)
  {
    FirstConstants();
    SecondConstants();
    ThirdConstants();
    FourthConstants();
  }

  // the lines have the table's constants
  lemma ConstantsAreStandard(i: nat)
    requires i < 64
    ensures LineConstant(i) == Table(i)
  {
    RowOfConstants(i / 4);
  }
}
