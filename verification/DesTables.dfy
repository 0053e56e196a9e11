/** The permutations and the packed substitution boxes of the block transform. */
module DesTables {

  /** The initial permutation IP: output bit i is input bit IpTable(i), counted from 1. */
  function IpTable(i: nat): (r: nat)
    requires i < 64
    ensures 1 <= r <= 64
  {
    match i
    case 0 => 58 case 1 => 50 case 2 => 42 case 3 => 34 case 4 => 26 case 5 => 18 case 6 => 10 case 7 => 2
    case 8 => 60 case 9 => 52 case 10 => 44 case 11 => 36 case 12 => 28 case 13 => 20 case 14 => 12 case 15 => 4
    case 16 => 62 case 17 => 54 case 18 => 46 case 19 => 38 case 20 => 30 case 21 => 22 case 22 => 14 case 23 => 6
    case 24 => 64 case 25 => 56 case 26 => 48 case 27 => 40 case 28 => 32 case 29 => 24 case 30 => 16 case 31 => 8
    case 32 => 57 case 33 => 49 case 34 => 41 case 35 => 33 case 36 => 25 case 37 => 17 case 38 => 9 case 39 => 1
    case 40 => 59 case 41 => 51 case 42 => 43 case 43 => 35 case 44 => 27 case 45 => 19 case 46 => 11 case 47 => 3
    case 48 => 61 case 49 => 53 case 50 => 45 case 51 => 37 case 52 => 29 case 53 => 21 case 54 => 13 case 55 => 5
    case 56 => 63 case 57 => 55 case 58 => 47 case 59 => 39 case 60 => 31 case 61 => 23 case 62 => 15 case _ => 7
  }

  /** The final permutation, the standard's IP^-1. */
  function FpTable(i: nat): (r: nat)
    requires i < 64
    ensures 1 <= r <= 64
  {
    match i
    case 0 => 40 case 1 => 8 case 2 => 48 case 3 => 16 case 4 => 56 case 5 => 24 case 6 => 64 case 7 => 32
    case 8 => 39 case 9 => 7 case 10 => 47 case 11 => 15 case 12 => 55 case 13 => 23 case 14 => 63 case 15 => 31
    case 16 => 38 case 17 => 6 case 18 => 46 case 19 => 14 case 20 => 54 case 21 => 22 case 22 => 62 case 23 => 30
    case 24 => 37 case 25 => 5 case 26 => 45 case 27 => 13 case 28 => 53 case 29 => 21 case 30 => 61 case 31 => 29
    case 32 => 36 case 33 => 4 case 34 => 44 case 35 => 12 case 36 => 52 case 37 => 20 case 38 => 60 case 39 => 28
    case 40 => 35 case 41 => 3 case 42 => 43 case 43 => 11 case 44 => 51 case 45 => 19 case 46 => 59 case 47 => 27
    case 48 => 34 case 49 => 2 case 50 => 42 case 51 => 10 case 52 => 50 case 53 => 18 case 54 => 58 case 55 => 26
    case 56 => 33 case 57 => 1 case 58 => 41 case 59 => 9 case 60 => 49 case 61 => 17 case 62 => 57 case _ => 25
  }

  /** The expansion E of the right half's 32 bits to 48. */
  function ExpandTable(i: nat): (r: nat)
    requires i < 48
    ensures 1 <= r <= 32
  {
    match i
    case 0 => 32 case 1 => 1 case 2 => 2 case 3 => 3 case 4 => 4 case 5 => 5 case 6 => 4 case 7 => 5
    case 8 => 6 case 9 => 7 case 10 => 8 case 11 => 9 case 12 => 8 case 13 => 9 case 14 => 10 case 15 => 11
    case 16 => 12 case 17 => 13 case 18 => 12 case 19 => 13 case 20 => 14 case 21 => 15 case 22 => 16 case 23 => 17
    case 24 => 16 case 25 => 17 case 26 => 18 case 27 => 19 case 28 => 20 case 29 => 21 case 30 => 20 case 31 => 21
    case 32 => 22 case 33 => 23 case 34 => 24 case 35 => 25 case 36 => 24 case 37 => 25 case 38 => 26 case 39 => 27
    case 40 => 28 case 41 => 29 case 42 => 28 case 43 => 29 case 44 => 30 case 45 => 31 case 46 => 32 case _ => 1
  }

  /** The permutation P of the 32 substituted bits. */
  function PTable(i: nat): (r: nat)
    requires i < 32
    ensures 1 <= r <= 32
  {
    match i
    case 0 => 16 case 1 => 7 case 2 => 20 case 3 => 21 case 4 => 29 case 5 => 12 case 6 => 28 case 7 => 17
    case 8 => 1 case 9 => 15 case 10 => 23 case 11 => 26 case 12 => 5 case 13 => 18 case 14 => 31 case 15 => 10
    case 16 => 2 case 17 => 8 case 18 => 24 case 19 => 14 case 20 => 32 case 21 => 27 case 22 => 3 case 23 => 9
    case 24 => 19 case 25 => 13 case 26 => 30 case 27 => 6 case 28 => 22 case 29 => 11 case 30 => 4 case _ => 25
  }

  /** Packed table 0: box S1 in the high nibble, box S2 in the low one. */
  function Substitution0(x: bv8): bv8
    requires x < 64
  {
    if x < 32 then
      match x
      case 0 => 0xef case 1 => 0x03 case 2 => 0x41 case 3 => 0xfd
      case 4 => 0xd8 case 5 => 0x74 case 6 => 0x1e case 7 => 0x47
      case 8 => 0x26 case 9 => 0xef case 10 => 0xfb case 11 => 0x22
      case 12 => 0xb3 case 13 => 0xd8 case 14 => 0x84 case 15 => 0x1e
      case 16 => 0x39 case 17 => 0xac case 18 => 0xa7 case 19 => 0x60
      case 20 => 0x62 case 21 => 0xc1 case 22 => 0xcd case 23 => 0xba
      case 24 => 0x5c case 25 => 0x96 case 26 => 0x90 case 27 => 0x59
      case 28 => 0x05 case 29 => 0x3b case 30 => 0x7a case _ => 0x85
    else
      match x
      case 32 => 0x40 case 33 => 0xfd case 34 => 0x1e case 35 => 0xc8
      case 36 => 0xe7 case 37 => 0x8a case 38 => 0x8b case 39 => 0x21
      case 40 => 0xda case 41 => 0x43 case 42 => 0x64 case 43 => 0x9f
      case 44 => 0x2d case 45 => 0x14 case 46 => 0xb1 case 47 => 0x72
      case 48 => 0xf5 case 49 => 0x5b case 50 => 0xc8 case 51 => 0xb6
      case 52 => 0x9c case 53 => 0x37 case 54 => 0x76 case 55 => 0xec
      case 56 => 0x39 case 57 => 0xa0 case 58 => 0xa3 case 59 => 0x05
      case 60 => 0x52 case 61 => 0x6e case 62 => 0x0f case _ => 0xd9
  }

  /** Packed table 1: box S3 in the high nibble, box S4 in the low one. */
  function Substitution1(x: bv8): bv8
    requires x < 64
  {
    if x < 32 then
      match x
      case 0 => 0xa7 case 1 => 0xdd case 2 => 0x0d case 3 => 0x78
      case 4 => 0x9e case 5 => 0x0b case 6 => 0xe3 case 7 => 0x95
      case 8 => 0x60 case 9 => 0x36 case 10 => 0x36 case 11 => 0x4f
      case 12 => 0xf9 case 13 => 0x60 case 14 => 0x5a case 15 => 0xa3
      case 16 => 0x11 case 17 => 0x24 case 18 => 0xd2 case 19 => 0x87
      case 20 => 0xc8 case 21 => 0x52 case 22 => 0x75 case 23 => 0xec
      case 24 => 0xbb case 25 => 0xc1 case 26 => 0x4c case 27 => 0xba
      case 28 => 0x24 case 29 => 0xfe case 30 => 0x8f case _ => 0x19
    else
      match x
      case 32 => 0xda case 33 => 0x13 case 34 => 0x66 case 35 => 0xaf
      case 36 => 0x49 case 37 => 0xd0 case 38 => 0x90 case 39 => 0x06
      case 40 => 0x8c case 41 => 0x6a case 42 => 0xfb case 43 => 0x91
      case 44 => 0x37 case 45 => 0x8d case 46 => 0x0d case 47 => 0x78
      case 48 => 0xbf case 49 => 0x49 case 50 => 0x11 case 51 => 0xf4
      case 52 => 0x23 case 53 => 0xe5 case 54 => 0xce case 55 => 0x3b
      case 56 => 0x55 case 57 => 0xbc case 58 => 0xa2 case 59 => 0x57
      case 60 => 0xe8 case 61 => 0x22 case 62 => 0x74 case _ => 0xce
  }

  /** Packed table 2: box S5 in the high nibble, box S6 in the low one. */
  function Substitution2(x: bv8): bv8
    requires x < 64
  {
    if x < 32 then
      match x
      case 0 => 0x2c case 1 => 0xea case 2 => 0xc1 case 3 => 0xbf
      case 4 => 0x4a case 5 => 0x24 case 6 => 0x1f case 7 => 0xc2
      case 8 => 0x79 case 9 => 0x47 case 10 => 0xa2 case 11 => 0x7c
      case 12 => 0xb6 case 13 => 0xd9 case 14 => 0x68 case 15 => 0x15
      case 16 => 0x80 case 17 => 0x56 case 18 => 0x5d case 19 => 0x01
      case 20 => 0x33 case 21 => 0xfd case 22 => 0xf4 case 23 => 0xae
      case 24 => 0xde case 25 => 0x30 case 26 => 0x07 case 27 => 0x9b
      case 28 => 0xe5 case 29 => 0x83 case 30 => 0x9b case _ => 0x68
    else
      match x
      case 32 => 0x49 case 33 => 0xb4 case 34 => 0x2e case 35 => 0x83
      case 36 => 0x1f case 37 => 0xc2 case 38 => 0xb5 case 39 => 0x7c
      case 40 => 0xa2 case 41 => 0x19 case 42 => 0xd8 case 43 => 0xe5
      case 44 => 0x7c case 45 => 0x2f case 46 => 0x83 case 47 => 0xda
      case 48 => 0xf7 case 49 => 0x6b case 50 => 0x90 case 51 => 0xfe
      case 52 => 0xc4 case 53 => 0x01 case 54 => 0x5a case 55 => 0x97
      case 56 => 0x61 case 57 => 0xa6 case 58 => 0x3d case 59 => 0x40
      case 60 => 0x0b case 61 => 0x58 case 62 => 0xe6 case _ => 0x3d
  }

  /** Packed table 3: box S7 in the high nibble, box S8 in the low one. */
  function Substitution3(x: bv8): bv8
    requires x < 64
  {
    if x < 32 then
      match x
      case 0 => 0x4d case 1 => 0xd1 case 2 => 0xb2 case 3 => 0x0f
      case 4 => 0x28 case 5 => 0xbd case 6 => 0xe4 case 7 => 0x78
      case 8 => 0xf6 case 9 => 0x4a case 10 => 0x0f case 11 => 0x93
      case 12 => 0x8b case 13 => 0x17 case 14 => 0xd1 case 15 => 0xa4
      case 16 => 0x3a case 17 => 0xec case 18 => 0xc9 case 19 => 0x35
      case 20 => 0x93 case 21 => 0x56 case 22 => 0x7e case 23 => 0xcb
      case 24 => 0x55 case 25 => 0x20 case 26 => 0xa0 case 27 => 0xfe
      case 28 => 0x6c case 29 => 0x89 case 30 => 0x17 case _ => 0x62
    else
      match x
      case 32 => 0x17 case 33 => 0x62 case 34 => 0x4b case 35 => 0xb1
      case 36 => 0xb4 case 37 => 0xde case 38 => 0xd1 case 39 => 0x87
      case 40 => 0xc9 case 41 => 0x14 case 42 => 0x3c case 43 => 0x4a
      case 44 => 0x7e case 45 => 0xa8 case 46 => 0xe2 case 47 => 0x7d
      case 48 => 0xa0 case 49 => 0x9f case 50 => 0xf6 case 51 => 0x5c
      case 52 => 0x6a case 53 => 0x09 case 54 => 0x8d case 55 => 0xf0
      case 56 => 0x0f case 57 => 0xe3 case 58 => 0x53 case 59 => 0x25
      case 60 => 0x95 case 61 => 0x36 case 62 => 0x28 case _ => 0xcb
  }

  /** The initial permutation goes through the columns from the bottom up, the even ones first. */
  lemma InitialByColumns(i: nat)
    requires i < 64
    ensures IpTable(i) == (if i < 32 then 58 + 2 * (i / 8) else 57 + 2 * (i / 8 - 4)) - 8 * (i % 8)
  {
  }

  /** Each group of the expansion takes four bits with their neighbours on both sides. */
  lemma ExpansionByGroups(i: nat)
    requires i < 48
    ensures ExpandTable(i) == (4 * (i / 6) + i % 6 + 31) % 32 + 1
  {
  }
}
