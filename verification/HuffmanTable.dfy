/** The Huffman code of Appendix B of RFC 7541, and the proof that it is a prefix code whose
    one-padding is unambiguous. The proof uses that the code is canonical: the words of one
    length are consecutive numbers, and each length starts at twice the end of the one before. */
module HuffmanTable {
  import opened Arithmetic
  import opened Bytes
  import opened Huffman

  function Row(r: nat, i: nat): Entry {
    match r
    case 0 => Row0(i)
    case 1 => Row1(i)
    case 2 => Row2(i)
    case 3 => Row3(i)
    case 4 => Row4(i)
    case 5 => Row5(i)
    case 6 => Row6(i)
    case _ => Row7(i)
  }

  function Row0(i: nat): Entry {
    match i
    case 0 => Entry(0x1ff8, 13) case 1 => Entry(0x7fffd8, 23) case 2 => Entry(0xfffffe2, 28)
    case 3 => Entry(0xfffffe3, 28)
    case 4 => Entry(0xfffffe4, 28) case 5 => Entry(0xfffffe5, 28) case 6 => Entry(0xfffffe6, 28)
    case 7 => Entry(0xfffffe7, 28)
    case 8 => Entry(0xfffffe8, 28) case 9 => Entry(0xffffea, 24) case 10 => Entry(0x3ffffffc, 30)
    case 11 => Entry(0xfffffe9, 28)
    case 12 => Entry(0xfffffea, 28) case 13 => Entry(0x3ffffffd, 30) case 14 => Entry(0xfffffeb, 28)
    case 15 => Entry(0xfffffec, 28)
    case 16 => Entry(0xfffffed, 28) case 17 => Entry(0xfffffee, 28) case 18 => Entry(0xfffffef, 28)
    case 19 => Entry(0xffffff0, 28)
    case 20 => Entry(0xffffff1, 28) case 21 => Entry(0xffffff2, 28) case 22 => Entry(0x3ffffffe, 30)
    case 23 => Entry(0xffffff3, 28)
    case 24 => Entry(0xffffff4, 28) case 25 => Entry(0xffffff5, 28) case 26 => Entry(0xffffff6, 28)
    case 27 => Entry(0xffffff7, 28)
    case 28 => Entry(0xffffff8, 28) case 29 => Entry(0xffffff9, 28) case 30 => Entry(0xffffffa, 28)
    case _ => Entry(0xffffffb, 28)
  }

  function Row1(i: nat): Entry {
    match i
    case 0 => Entry(0x14, 6) case 1 => Entry(0x3f8, 10) case 2 => Entry(0x3f9, 10) case 3 => Entry(0xffa, 12)
    case 4 => Entry(0x1ff9, 13) case 5 => Entry(0x15, 6) case 6 => Entry(0xf8, 8) case 7 => Entry(0x7fa, 11)
    case 8 => Entry(0x3fa, 10) case 9 => Entry(0x3fb, 10) case 10 => Entry(0xf9, 8) case 11 => Entry(0x7fb, 11)
    case 12 => Entry(0xfa, 8) case 13 => Entry(0x16, 6) case 14 => Entry(0x17, 6) case 15 => Entry(0x18, 6)
    case 16 => Entry(0x0, 5) case 17 => Entry(0x1, 5) case 18 => Entry(0x2, 5) case 19 => Entry(0x19, 6)
    case 20 => Entry(0x1a, 6) case 21 => Entry(0x1b, 6) case 22 => Entry(0x1c, 6) case 23 => Entry(0x1d, 6)
    case 24 => Entry(0x1e, 6) case 25 => Entry(0x1f, 6) case 26 => Entry(0x5c, 7) case 27 => Entry(0xfb, 8)
    case 28 => Entry(0x7ffc, 15) case 29 => Entry(0x20, 6) case 30 => Entry(0xffb, 12) case _ => Entry(0x3fc, 10)
  }

  function Row2(i: nat): Entry {
    match i
    case 0 => Entry(0x1ffa, 13) case 1 => Entry(0x21, 6) case 2 => Entry(0x5d, 7) case 3 => Entry(0x5e, 7)
    case 4 => Entry(0x5f, 7) case 5 => Entry(0x60, 7) case 6 => Entry(0x61, 7) case 7 => Entry(0x62, 7)
    case 8 => Entry(0x63, 7) case 9 => Entry(0x64, 7) case 10 => Entry(0x65, 7) case 11 => Entry(0x66, 7)
    case 12 => Entry(0x67, 7) case 13 => Entry(0x68, 7) case 14 => Entry(0x69, 7) case 15 => Entry(0x6a, 7)
    case 16 => Entry(0x6b, 7) case 17 => Entry(0x6c, 7) case 18 => Entry(0x6d, 7) case 19 => Entry(0x6e, 7)
    case 20 => Entry(0x6f, 7) case 21 => Entry(0x70, 7) case 22 => Entry(0x71, 7) case 23 => Entry(0x72, 7)
    case 24 => Entry(0xfc, 8) case 25 => Entry(0x73, 7) case 26 => Entry(0xfd, 8) case 27 => Entry(0x1ffb, 13)
    case 28 => Entry(0x7fff0, 19) case 29 => Entry(0x1ffc, 13) case 30 => Entry(0x3ffc, 14) case _ => Entry(0x22, 6)
  }

  function Row3(i: nat): Entry {
    match i
    case 0 => Entry(0x7ffd, 15) case 1 => Entry(0x3, 5) case 2 => Entry(0x23, 6) case 3 => Entry(0x4, 5)
    case 4 => Entry(0x24, 6) case 5 => Entry(0x5, 5) case 6 => Entry(0x25, 6) case 7 => Entry(0x26, 6)
    case 8 => Entry(0x27, 6) case 9 => Entry(0x6, 5) case 10 => Entry(0x74, 7) case 11 => Entry(0x75, 7)
    case 12 => Entry(0x28, 6) case 13 => Entry(0x29, 6) case 14 => Entry(0x2a, 6) case 15 => Entry(0x7, 5)
    case 16 => Entry(0x2b, 6) case 17 => Entry(0x76, 7) case 18 => Entry(0x2c, 6) case 19 => Entry(0x8, 5)
    case 20 => Entry(0x9, 5) case 21 => Entry(0x2d, 6) case 22 => Entry(0x77, 7) case 23 => Entry(0x78, 7)
    case 24 => Entry(0x79, 7) case 25 => Entry(0x7a, 7) case 26 => Entry(0x7b, 7) case 27 => Entry(0x7ffe, 15)
    case 28 => Entry(0x7fc, 11) case 29 => Entry(0x3ffd, 14) case 30 => Entry(0x1ffd, 13) case _ => Entry(0xffffffc, 28)
  }

  function Row4(i: nat): Entry {
    match i
    case 0 => Entry(0xfffe6, 20) case 1 => Entry(0x3fffd2, 22) case 2 => Entry(0xfffe7, 20) case 3 => Entry(0xfffe8, 20)
    case 4 => Entry(0x3fffd3, 22) case 5 => Entry(0x3fffd4, 22) case 6 => Entry(0x3fffd5, 22)
    case 7 => Entry(0x7fffd9, 23)
    case 8 => Entry(0x3fffd6, 22) case 9 => Entry(0x7fffda, 23) case 10 => Entry(0x7fffdb, 23)
    case 11 => Entry(0x7fffdc, 23)
    case 12 => Entry(0x7fffdd, 23) case 13 => Entry(0x7fffde, 23) case 14 => Entry(0xffffeb, 24)
    case 15 => Entry(0x7fffdf, 23)
    case 16 => Entry(0xffffec, 24) case 17 => Entry(0xffffed, 24) case 18 => Entry(0x3fffd7, 22)
    case 19 => Entry(0x7fffe0, 23)
    case 20 => Entry(0xffffee, 24) case 21 => Entry(0x7fffe1, 23) case 22 => Entry(0x7fffe2, 23)
    case 23 => Entry(0x7fffe3, 23)
    case 24 => Entry(0x7fffe4, 23) case 25 => Entry(0x1fffdc, 21) case 26 => Entry(0x3fffd8, 22)
    case 27 => Entry(0x7fffe5, 23)
    case 28 => Entry(0x3fffd9, 22) case 29 => Entry(0x7fffe6, 23) case 30 => Entry(0x7fffe7, 23)
    case _ => Entry(0xffffef, 24)
  }

  function Row5(i: nat): Entry {
    match i
    case 0 => Entry(0x3fffda, 22) case 1 => Entry(0x1fffdd, 21) case 2 => Entry(0xfffe9, 20)
    case 3 => Entry(0x3fffdb, 22)
    case 4 => Entry(0x3fffdc, 22) case 5 => Entry(0x7fffe8, 23) case 6 => Entry(0x7fffe9, 23)
    case 7 => Entry(0x1fffde, 21)
    case 8 => Entry(0x7fffea, 23) case 9 => Entry(0x3fffdd, 22) case 10 => Entry(0x3fffde, 22)
    case 11 => Entry(0xfffff0, 24)
    case 12 => Entry(0x1fffdf, 21) case 13 => Entry(0x3fffdf, 22) case 14 => Entry(0x7fffeb, 23)
    case 15 => Entry(0x7fffec, 23)
    case 16 => Entry(0x1fffe0, 21) case 17 => Entry(0x1fffe1, 21) case 18 => Entry(0x3fffe0, 22)
    case 19 => Entry(0x1fffe2, 21)
    case 20 => Entry(0x7fffed, 23) case 21 => Entry(0x3fffe1, 22) case 22 => Entry(0x7fffee, 23)
    case 23 => Entry(0x7fffef, 23)
    case 24 => Entry(0xfffea, 20) case 25 => Entry(0x3fffe2, 22) case 26 => Entry(0x3fffe3, 22)
    case 27 => Entry(0x3fffe4, 22)
    case 28 => Entry(0x7ffff0, 23) case 29 => Entry(0x3fffe5, 22) case 30 => Entry(0x3fffe6, 22)
    case _ => Entry(0x7ffff1, 23)
  }

  function Row6(i: nat): Entry {
    match i
    case 0 => Entry(0x3ffffe0, 26) case 1 => Entry(0x3ffffe1, 26) case 2 => Entry(0xfffeb, 20)
    case 3 => Entry(0x7fff1, 19)
    case 4 => Entry(0x3fffe7, 22) case 5 => Entry(0x7ffff2, 23) case 6 => Entry(0x3fffe8, 22)
    case 7 => Entry(0x1ffffec, 25)
    case 8 => Entry(0x3ffffe2, 26) case 9 => Entry(0x3ffffe3, 26) case 10 => Entry(0x3ffffe4, 26)
    case 11 => Entry(0x7ffffde, 27)
    case 12 => Entry(0x7ffffdf, 27) case 13 => Entry(0x3ffffe5, 26) case 14 => Entry(0xfffff1, 24)
    case 15 => Entry(0x1ffffed, 25)
    case 16 => Entry(0x7fff2, 19) case 17 => Entry(0x1fffe3, 21) case 18 => Entry(0x3ffffe6, 26)
    case 19 => Entry(0x7ffffe0, 27)
    case 20 => Entry(0x7ffffe1, 27) case 21 => Entry(0x3ffffe7, 26) case 22 => Entry(0x7ffffe2, 27)
    case 23 => Entry(0xfffff2, 24)
    case 24 => Entry(0x1fffe4, 21) case 25 => Entry(0x1fffe5, 21) case 26 => Entry(0x3ffffe8, 26)
    case 27 => Entry(0x3ffffe9, 26)
    case 28 => Entry(0xffffffd, 28) case 29 => Entry(0x7ffffe3, 27) case 30 => Entry(0x7ffffe4, 27)
    case _ => Entry(0x7ffffe5, 27)
  }

  function Row7(i: nat): Entry {
    match i
    case 0 => Entry(0xfffec, 20) case 1 => Entry(0xfffff3, 24) case 2 => Entry(0xfffed, 20)
    case 3 => Entry(0x1fffe6, 21)
    case 4 => Entry(0x3fffe9, 22) case 5 => Entry(0x1fffe7, 21) case 6 => Entry(0x1fffe8, 21)
    case 7 => Entry(0x7ffff3, 23)
    case 8 => Entry(0x3fffea, 22) case 9 => Entry(0x3fffeb, 22) case 10 => Entry(0x1ffffee, 25)
    case 11 => Entry(0x1ffffef, 25)
    case 12 => Entry(0xfffff4, 24) case 13 => Entry(0xfffff5, 24) case 14 => Entry(0x3ffffea, 26)
    case 15 => Entry(0x7ffff4, 23)
    case 16 => Entry(0x3ffffeb, 26) case 17 => Entry(0x7ffffe6, 27) case 18 => Entry(0x3ffffec, 26)
    case 19 => Entry(0x3ffffed, 26)
    case 20 => Entry(0x7ffffe7, 27) case 21 => Entry(0x7ffffe8, 27) case 22 => Entry(0x7ffffe9, 27)
    case 23 => Entry(0x7ffffea, 27)
    case 24 => Entry(0x7ffffeb, 27) case 25 => Entry(0xffffffe, 28) case 26 => Entry(0x7ffffec, 27)
    case 27 => Entry(0x7ffffed, 27)
    case 28 => Entry(0x7ffffee, 27) case 29 => Entry(0x7ffffef, 27) case 30 => Entry(0x7fffff0, 27)
    case _ => Entry(0x3ffffee, 26)
  }

  /** `huffman_table`, without the end-of-string entry, which is never encoded nor decoded. */
  const RFC_TABLE: Table := (s: byte) => Row(s / 32, s % 32)

  /** The k-th symbol whose word has the given length. */
  function SymbolAt(bits: nat, k: nat): nat {
    match bits
    case 5 => Symbol5(k)
    case 6 => Symbol6(k)
    case 7 => Symbol7(k)
    case 8 => Symbol8(k)
    case 10 => Symbol10(k)
    case 11 => Symbol11(k)
    case 12 => Symbol12(k)
    case 13 => Symbol13(k)
    case 14 => Symbol14(k)
    case 15 => Symbol15(k)
    case 19 => Symbol19(k)
    case 20 => Symbol20(k)
    case 21 => Symbol21(k)
    case 22 => Symbol22(k)
    case 23 => Symbol23(k)
    case 24 => Symbol24(k)
    case 25 => Symbol25(k)
    case 26 => Symbol26(k)
    case 27 => Symbol27(k)
    case 28 => Symbol28(k)
    case 30 => Symbol30(k)
    case _ => 0
  }

  function Symbol5(k: nat): nat {
    match k
    case 0 => 48 case 1 => 49 case 2 => 50 case 3 => 97 case 4 => 99 case 5 => 101 case 6 => 105 case 7 => 111
    case 8 => 115 case _ => 116
  }

  function Symbol6(k: nat): nat {
    match k
    case 0 => 32 case 1 => 37 case 2 => 45 case 3 => 46 case 4 => 47 case 5 => 51 case 6 => 52 case 7 => 53
    case 8 => 54 case 9 => 55 case 10 => 56 case 11 => 57 case 12 => 61 case 13 => 65 case 14 => 95 case 15 => 98
    case 16 => 100 case 17 => 102 case 18 => 103 case 19 => 104 case 20 => 108 case 21 => 109 case 22 => 110
    case 23 => 112
    case 24 => 114 case _ => 117
  }

  function Symbol7(k: nat): nat {
    match k
    case 0 => 58 case 1 => 66 case 2 => 67 case 3 => 68 case 4 => 69 case 5 => 70 case 6 => 71 case 7 => 72
    case 8 => 73 case 9 => 74 case 10 => 75 case 11 => 76 case 12 => 77 case 13 => 78 case 14 => 79 case 15 => 80
    case 16 => 81 case 17 => 82 case 18 => 83 case 19 => 84 case 20 => 85 case 21 => 86 case 22 => 87 case 23 => 89
    case 24 => 106 case 25 => 107 case 26 => 113 case 27 => 118 case 28 => 119 case 29 => 120 case 30 => 121
    case _ => 122
  }

  function Symbol8(k: nat): nat {
    match k
    case 0 => 38 case 1 => 42 case 2 => 44 case 3 => 59 case 4 => 88 case _ => 90
  }

  function Symbol10(k: nat): nat {
    match k
    case 0 => 33 case 1 => 34 case 2 => 40 case 3 => 41 case _ => 63
  }

  function Symbol11(k: nat): nat {
    match k
    case 0 => 39 case 1 => 43 case _ => 124
  }

  function Symbol12(k: nat): nat {
    match k
    case 0 => 35 case _ => 62
  }

  function Symbol13(k: nat): nat {
    match k
    case 0 => 0 case 1 => 36 case 2 => 64 case 3 => 91 case 4 => 93 case _ => 126
  }

  function Symbol14(k: nat): nat {
    match k
    case 0 => 94 case _ => 125
  }

  function Symbol15(k: nat): nat {
    match k
    case 0 => 60 case 1 => 96 case _ => 123
  }

  function Symbol19(k: nat): nat {
    match k
    case 0 => 92 case 1 => 195 case _ => 208
  }

  function Symbol20(k: nat): nat {
    match k
    case 0 => 128 case 1 => 130 case 2 => 131 case 3 => 162 case 4 => 184 case 5 => 194 case 6 => 224 case _ => 226
  }

  function Symbol21(k: nat): nat {
    match k
    case 0 => 153 case 1 => 161 case 2 => 167 case 3 => 172 case 4 => 176 case 5 => 177 case 6 => 179 case 7 => 209
    case 8 => 216 case 9 => 217 case 10 => 227 case 11 => 229 case _ => 230
  }

  function Symbol22(k: nat): nat {
    match k
    case 0 => 129 case 1 => 132 case 2 => 133 case 3 => 134 case 4 => 136 case 5 => 146 case 6 => 154 case 7 => 156
    case 8 => 160 case 9 => 163 case 10 => 164 case 11 => 169 case 12 => 170 case 13 => 173 case 14 => 178
    case 15 => 181
    case 16 => 185 case 17 => 186 case 18 => 187 case 19 => 189 case 20 => 190 case 21 => 196 case 22 => 198
    case 23 => 228
    case 24 => 232 case _ => 233
  }

  function Symbol23(k: nat): nat {
    match k
    case 0 => 1 case 1 => 135 case 2 => 137 case 3 => 138 case 4 => 139 case 5 => 140 case 6 => 141 case 7 => 143
    case 8 => 147 case 9 => 149 case 10 => 150 case 11 => 151 case 12 => 152 case 13 => 155 case 14 => 157
    case 15 => 158
    case 16 => 165 case 17 => 166 case 18 => 168 case 19 => 174 case 20 => 175 case 21 => 180 case 22 => 182
    case 23 => 183
    case 24 => 188 case 25 => 191 case 26 => 197 case 27 => 231 case _ => 239
  }

  function Symbol24(k: nat): nat {
    match k
    case 0 => 9 case 1 => 142 case 2 => 144 case 3 => 145 case 4 => 148 case 5 => 159 case 6 => 171 case 7 => 206
    case 8 => 215 case 9 => 225 case 10 => 236 case _ => 237
  }

  function Symbol25(k: nat): nat {
    match k
    case 0 => 199 case 1 => 207 case 2 => 234 case _ => 235
  }

  function Symbol26(k: nat): nat {
    match k
    case 0 => 192 case 1 => 193 case 2 => 200 case 3 => 201 case 4 => 202 case 5 => 205 case 6 => 210 case 7 => 213
    case 8 => 218 case 9 => 219 case 10 => 238 case 11 => 240 case 12 => 242 case 13 => 243 case _ => 255
  }

  function Symbol27(k: nat): nat {
    match k
    case 0 => 203 case 1 => 204 case 2 => 211 case 3 => 212 case 4 => 214 case 5 => 221 case 6 => 222 case 7 => 223
    case 8 => 241 case 9 => 244 case 10 => 245 case 11 => 246 case 12 => 247 case 13 => 248 case 14 => 250
    case 15 => 251
    case 16 => 252 case 17 => 253 case _ => 254
  }

  function Symbol28(k: nat): nat {
    match k
    case 0 => 2 case 1 => 3 case 2 => 4 case 3 => 5 case 4 => 6 case 5 => 7 case 6 => 8 case 7 => 11
    case 8 => 12 case 9 => 14 case 10 => 15 case 11 => 16 case 12 => 17 case 13 => 18 case 14 => 19 case 15 => 20
    case 16 => 21 case 17 => 23 case 18 => 24 case 19 => 25 case 20 => 26 case 21 => 27 case 22 => 28 case 23 => 29
    case 24 => 30 case 25 => 31 case 26 => 127 case 27 => 220 case _ => 249
  }

  function Symbol30(k: nat): nat {
    match k
    case 0 => 10 case 1 => 13 case _ => 22
  }

  /** How many words there are of each length. */
  function Count(bits: nat): nat {
    match bits
    case 5 => 10
    case 6 => 26
    case 7 => 32
    case 8 => 6
    case 10 => 5
    case 11 => 3
    case 12 => 2
    case 13 => 6
    case 14 => 2
    case 15 => 3
    case 19 => 3
    case 20 => 8
    case 21 => 13
    case 22 => 26
    case 23 => 29
    case 24 => 12
    case 25 => 4
    case 26 => 15
    case 27 => 19
    case 28 => 29
    case 30 => 3
    case _ => 0
  }

  /** The first word of each length. */
  function First(bits: nat): nat {
    match bits
    case 6 => 0x14
    case 7 => 0x5c
    case 8 => 0xf8
    case 9 => 0x1fc
    case 10 => 0x3f8
    case 11 => 0x7fa
    case 12 => 0xffa
    case 13 => 0x1ff8
    case 14 => 0x3ffc
    case 15 => 0x7ffc
    case 16 => 0xfffe
    case 17 => 0x1fffc
    case 18 => 0x3fff8
    case 19 => 0x7fff0
    case 20 => 0xfffe6
    case 21 => 0x1fffdc
    case 22 => 0x3fffd2
    case 23 => 0x7fffd8
    case 24 => 0xffffea
    case 25 => 0x1ffffec
    case 26 => 0x3ffffe0
    case 27 => 0x7ffffde
    case 28 => 0xfffffe2
    case 29 => 0x1ffffffe
    case 30 => 0x3ffffffc
    case _ => 0
  }

  predicate Canonical(e: Entry, s: nat) {
    && 5 <= e.bits <= 30
    && 0 <= e.code - First(e.bits) < Count(e.bits)
    && SymbolAt(e.bits, e.code - First(e.bits)) == s
  }

  lemma FirstChain(n: nat)
    requires 5 <= n < 30
    ensures First(n + 1) == 2 * (First(n) + Count(n))
  {
  }

  lemma Row0Canonical(i: nat)
    requires i < 32
    ensures Canonical(Row0(i), 0 + i)
  {
  }

  lemma Row1Canonical(i: nat)
    requires i < 32
    ensures Canonical(Row1(i), 32 + i)
  {
  }

  lemma Row2Canonical(i: nat)
    requires i < 32
    ensures Canonical(Row2(i), 64 + i)
  {
  }

  lemma Row3Canonical(i: nat)
    requires i < 32
    ensures Canonical(Row3(i), 96 + i)
  {
  }

  lemma Row4Canonical(i: nat)
    requires i < 32
    ensures Canonical(Row4(i), 128 + i)
  {
  }

  lemma Row5Canonical(i: nat)
    requires i < 32
    ensures Canonical(Row5(i), 160 + i)
  {
  }

  lemma Row6Canonical(i: nat)
    requires i < 32
    ensures Canonical(Row6(i), 192 + i)
  {
  }

  lemma Row7Canonical(i: nat)
    requires i < 32
    ensures Canonical(Row7(i), 224 + i)
  {
  }

  lemma TableCanonical(s: byte, e: Entry)
    requires e == RFC_TABLE(s)
    ensures forall x :: x == e ==> Canonical(x, s)
  {
    var i := s % 32;
    match s / 32
    case 0 => Row0Canonical(i);
    case 1 => Row1Canonical(i);
    case 2 => Row2Canonical(i);
    case 3 => Row3Canonical(i);
    case 4 => Row4Canonical(i);
    case 5 => Row5Canonical(i);
    case 6 => Row6Canonical(i);
    case _ => Row7Canonical(i);
  }

  /** Words of length n lie beyond all extensions of words of a shorter length m. */
  lemma {:induction false} ChainGap(first: nat -> nat, count: nat -> nat, m: nat, n: nat)
    requires m < n && forall k :: m <= k < n ==> first(k + 1) == 2 * (first(k) + count(k))
    ensures (first(m) + count(m)) * Pow2(n - m) <= first(n)
  {
    var end := first(m) + count(m);
    assert first(n - 1 + 1) == 2 * (first(n - 1) + count(n - 1));
    if m == n - 1 {
      assert end * Pow2(1) == 2 * end;
    } else {
      ChainGap(first, count, m, n - 1);
      MulDouble(end, Pow2(n - 1 - m));
    }
  }

  lemma LengthGap(m: nat, n: nat)
    requires 5 <= m < n <= 30
    ensures (First(m) + Count(m)) * Pow2(n - m) <= First(n)
  {
    forall k | m <= k < n ensures First(k + 1) == 2 * (First(k) + Count(k)) { FirstChain(k); }
    ChainGap(First, Count, m, n);
  }

  lemma {:induction false} WordsFit(n: nat)
    requires 5 <= n <= 30
    ensures First(n) + Count(n) <= Pow2(n)
    decreases 30 - n
  {
    if n < 30 {
      WordsFit(n + 1);
      FirstChain(n);
    } else {
      assert Pow2(10) == 1024;
      Pow2Sum(10, 10);
      Pow2Sum(20, 10);
    }
  }

  lemma {:induction false} ShrBound(x: nat, m: nat, d: nat)
    ensures Shr(x, d) * Pow2(d) <= x
    ensures x < Pow2(m + d) ==> Shr(x, d) < Pow2(m)
  {
    if d == 0 {
    } else {
      ShrBound(x / 2, m, d - 1);
      MulDouble(Shr(x, d), Pow2(d - 1));
      assert Pow2(m + d) == 2 * Pow2(m + d - 1);
    }
  }

  /** A word x of m bits below `end` is no prefix of a word y beyond all extensions of `end`. */
  lemma NoPrefixAcrossLengths(x: nat, m: nat, y: nat, n: nat, end: nat)
    requires m < n && x < end <= Pow2(m) && end * Pow2(n - m) <= y < Pow2(n)
    ensures !(BitsOf(x, m) <= BitsOf(y, n))
  {
    var d := n - m;
    var top := Shr(y, d);
    ShrBound(y, m, d);
    ShrOfFirst(y, end, d);
    BitsSplit(y, m, d);
    if BitsOf(x, m) <= BitsOf(y, n) {
      assert BitsOf(y, n)[..m] == BitsOf(top, m);
      BitsInjective(x, top, m);
      assert false;
    }
  }

  lemma {:induction false} ShrOfFirst(x: nat, y: nat, d: nat)
    requires y * Pow2(d) <= x
    ensures y <= Shr(x, d)
  {
    if d == 0 {
    } else {
      var p := Pow2(d - 1);
      assert y * Pow2(d) == 2 * (y * p);
      ShrOfFirst(x / 2, y, d - 1);
    }
  }

  lemma WordFits(s: byte, e: Entry)
    requires e == RFC_TABLE(s)
    ensures 5 <= e.bits <= 30 && e.code < Pow2(e.bits)
  {
    TableCanonical(s, e);
    assert Canonical(e, s);
    WordsFit(e.bits);
  }

  lemma CanonicalPrefix(s: byte, t: byte, e: Entry, f: Entry)
    requires Canonical(e, s) && Canonical(f, t) && BitsOf(e.code, e.bits) <= BitsOf(f.code, f.bits)
    ensures s == t
  {
    if e.bits < f.bits {
      ShorterIsNoPrefix(e.code, e.bits, f.code, f.bits);
      assert false;
    } else {
      SameLengthSameWord(e, f);
    }
  }

  lemma SameLengthSameWord(e: Entry, f: Entry)
    requires 5 <= f.bits <= e.bits <= 30 && BitsOf(e.code, e.bits) <= BitsOf(f.code, f.bits)
    requires e.code < First(e.bits) + Count(e.bits) && f.code < First(f.bits) + Count(f.bits)
    ensures e == f
  {
    WordsFit(e.bits);
    BitsInjective(e.code, f.code, e.bits);
  }

  lemma ShorterIsNoPrefix(x: nat, m: nat, y: nat, n: nat)
    requires 5 <= m < n <= 30 && x < First(m) + Count(m) && First(n) <= y < First(n) + Count(n)
    ensures !(BitsOf(x, m) <= BitsOf(y, n))
  {
    WordsFit(m);
    WordsFit(n);
    LengthGap(m, n);
    NoPrefixAcrossLengths(x, m, y, n, First(m) + Count(m));
  }

  /** No word of the table is a prefix of another. */
  lemma TableIsPrefixFree()
    ensures PrefixFree(CodeOf(RFC_TABLE)) && WellSized(RFC_TABLE)
  {
    var code := CodeOf(RFC_TABLE);
    forall s: byte ensures 1 <= RFC_TABLE(s).bits <= 30 && RFC_TABLE(s).code < Pow2(RFC_TABLE(s).bits) {
      WordFits(s, RFC_TABLE(s));
    }
    forall s: byte, t: byte | code(s) <= code(t) ensures s == t {
      PrefixMeansEqual(s, t);
    }
  }

  lemma PrefixMeansEqual(s: byte, t: byte)
    requires CodeOf(RFC_TABLE)(s) <= CodeOf(RFC_TABLE)(t)
    ensures s == t
  {
    var e, f := RFC_TABLE(s), RFC_TABLE(t);
    TableCanonical(s, e);
    TableCanonical(t, f);
    CanonicalPrefix(s, t, e, f);
  }

  lemma ShortWordNotAllOnes(s: byte, e: Entry, k: nat)
    requires e == RFC_TABLE(s) && k <= 7
    ensures BitsOf(e.code, e.bits) != Ones(k)
  {
    TableCanonical(s, e);
    assert Canonical(e, s);
    WordsFit(e.bits);
    assert Pow2(5) == 32 && Pow2(6) == 64 && Pow2(7) == 128;
    if BitsOf(e.code, e.bits) == Ones(k) {
      assert e.bits == k;
      AllOnes(k);
      BitsInjective(e.code, Pow2(k) - 1, k);
      assert false;
    }
  }

  /** No word of at most seven bits is all ones, and some word starts with seven ones. */
  lemma TableIsPaddable()
    ensures Paddable(CodeOf(RFC_TABLE))
  {
    var code := CodeOf(RFC_TABLE);
    forall s: byte, k: nat | k <= 7 ensures code(s) != Ones(k) {
      ShortWordNotAllOnes(s, RFC_TABLE(s), k);
    }
    LineFeedWord();
    assert Ones(7) <= code(10);
  }

  lemma LineFeedWord()
    ensures RFC_TABLE(10) == Entry(0x3ffffffc, 30) && Ones(7) <= BitsOf(0x3ffffffc, 30)
  {
    BitsSplit(0x3ffffffc, 7, 23);
    TopOfTen();
    AllOnes(7);
  }

  lemma TopOfTen()
    ensures Shr(0x3ffffffc, 23) == 127 == Pow2(7) - 1
  {
    assert Pow2(7) == 128 && Pow2(3) == 8 && Pow2(10) == 1024;
    Pow2Sum(10, 10);
    Pow2Sum(20, 3);
    ShrOfSum(127, 0x7ffffc, 23);
  }
}
