/** The Huffman code of Appendix B of RFC 7541: the table, symbol by symbol as
    the source lists it, and its inverse, length by length as the decoder's
    nested map holds it. */
module HuffmanTable {
  import opened Huffman

  /** `HUFFMAN_CODE_TABLE`. */
  function Entry(symbol: nat): Code {
    if symbol < 16 then Row0(symbol)
    else if symbol < 32 then Row16(symbol)
    else if symbol < 48 then Row32(symbol)
    else if symbol < 64 then Row48(symbol)
    else if symbol < 80 then Row64(symbol)
    else if symbol < 96 then Row80(symbol)
    else if symbol < 112 then Row96(symbol)
    else if symbol < 128 then Row112(symbol)
    else if symbol < 144 then Row128(symbol)
    else if symbol < 160 then Row144(symbol)
    else if symbol < 176 then Row160(symbol)
    else if symbol < 192 then Row176(symbol)
    else if symbol < 208 then Row192(symbol)
    else if symbol < 224 then Row208(symbol)
    else if symbol < 240 then Row224(symbol)
    else if symbol < 256 then Row240(symbol)
    else Code(0x3fffffff, 30)
  }

  function Row0(symbol: nat): Code {
    if symbol == 0 then Code(0x1ff8, 13) else if symbol == 1 then Code(0x7fffd8, 23)
    else if symbol == 2 then Code(0xfffffe2, 28) else if symbol == 3 then Code(0xfffffe3, 28)
    else if symbol == 4 then Code(0xfffffe4, 28) else if symbol == 5 then Code(0xfffffe5, 28)
    else if symbol == 6 then Code(0xfffffe6, 28) else if symbol == 7 then Code(0xfffffe7, 28)
    else if symbol == 8 then Code(0xfffffe8, 28) else if symbol == 9 then Code(0xffffea, 24)
    else if symbol == 10 then Code(0x3ffffffc, 30) else if symbol == 11 then Code(0xfffffe9, 28)
    else if symbol == 12 then Code(0xfffffea, 28) else if symbol == 13 then Code(0x3ffffffd, 30)
    else if symbol == 14 then Code(0xfffffeb, 28) else Code(0xfffffec, 28)
  }

  function Row16(symbol: nat): Code {
    if symbol == 16 then Code(0xfffffed, 28) else if symbol == 17 then Code(0xfffffee, 28)
    else if symbol == 18 then Code(0xfffffef, 28) else if symbol == 19 then Code(0xffffff0, 28)
    else if symbol == 20 then Code(0xffffff1, 28) else if symbol == 21 then Code(0xffffff2, 28)
    else if symbol == 22 then Code(0x3ffffffe, 30) else if symbol == 23 then Code(0xffffff3, 28)
    else if symbol == 24 then Code(0xffffff4, 28) else if symbol == 25 then Code(0xffffff5, 28)
    else if symbol == 26 then Code(0xffffff6, 28) else if symbol == 27 then Code(0xffffff7, 28)
    else if symbol == 28 then Code(0xffffff8, 28) else if symbol == 29 then Code(0xffffff9, 28)
    else if symbol == 30 then Code(0xffffffa, 28) else Code(0xffffffb, 28)
  }

  function Row32(symbol: nat): Code {
    if symbol == 32 then Code(0x14, 6) else if symbol == 33 then Code(0x3f8, 10)
    else if symbol == 34 then Code(0x3f9, 10) else if symbol == 35 then Code(0xffa, 12)
    else if symbol == 36 then Code(0x1ff9, 13) else if symbol == 37 then Code(0x15, 6)
    else if symbol == 38 then Code(0xf8, 8) else if symbol == 39 then Code(0x7fa, 11)
    else if symbol == 40 then Code(0x3fa, 10) else if symbol == 41 then Code(0x3fb, 10)
    else if symbol == 42 then Code(0xf9, 8) else if symbol == 43 then Code(0x7fb, 11)
    else if symbol == 44 then Code(0xfa, 8) else if symbol == 45 then Code(0x16, 6)
    else if symbol == 46 then Code(0x17, 6) else Code(0x18, 6)
  }

  function Row48(symbol: nat): Code {
    if symbol == 48 then Code(0x0, 5) else if symbol == 49 then Code(0x1, 5)
    else if symbol == 50 then Code(0x2, 5) else if symbol == 51 then Code(0x19, 6)
    else if symbol == 52 then Code(0x1a, 6) else if symbol == 53 then Code(0x1b, 6)
    else if symbol == 54 then Code(0x1c, 6) else if symbol == 55 then Code(0x1d, 6)
    else if symbol == 56 then Code(0x1e, 6) else if symbol == 57 then Code(0x1f, 6)
    else if symbol == 58 then Code(0x5c, 7) else if symbol == 59 then Code(0xfb, 8)
    else if symbol == 60 then Code(0x7ffc, 15) else if symbol == 61 then Code(0x20, 6)
    else if symbol == 62 then Code(0xffb, 12) else Code(0x3fc, 10)
  }

  function Row64(symbol: nat): Code {
    if symbol == 64 then Code(0x1ffa, 13) else if symbol == 65 then Code(0x21, 6)
    else if symbol == 66 then Code(0x5d, 7) else if symbol == 67 then Code(0x5e, 7)
    else if symbol == 68 then Code(0x5f, 7) else if symbol == 69 then Code(0x60, 7)
    else if symbol == 70 then Code(0x61, 7) else if symbol == 71 then Code(0x62, 7)
    else if symbol == 72 then Code(0x63, 7) else if symbol == 73 then Code(0x64, 7)
    else if symbol == 74 then Code(0x65, 7) else if symbol == 75 then Code(0x66, 7)
    else if symbol == 76 then Code(0x67, 7) else if symbol == 77 then Code(0x68, 7)
    else if symbol == 78 then Code(0x69, 7) else Code(0x6a, 7)
  }

  function Row80(symbol: nat): Code {
    if symbol == 80 then Code(0x6b, 7) else if symbol == 81 then Code(0x6c, 7)
    else if symbol == 82 then Code(0x6d, 7) else if symbol == 83 then Code(0x6e, 7)
    else if symbol == 84 then Code(0x6f, 7) else if symbol == 85 then Code(0x70, 7)
    else if symbol == 86 then Code(0x71, 7) else if symbol == 87 then Code(0x72, 7)
    else if symbol == 88 then Code(0xfc, 8) else if symbol == 89 then Code(0x73, 7)
    else if symbol == 90 then Code(0xfd, 8) else if symbol == 91 then Code(0x1ffb, 13)
    else if symbol == 92 then Code(0x7fff0, 19) else if symbol == 93 then Code(0x1ffc, 13)
    else if symbol == 94 then Code(0x3ffc, 14) else Code(0x22, 6)
  }

  function Row96(symbol: nat): Code {
    if symbol == 96 then Code(0x7ffd, 15) else if symbol == 97 then Code(0x3, 5)
    else if symbol == 98 then Code(0x23, 6) else if symbol == 99 then Code(0x4, 5)
    else if symbol == 100 then Code(0x24, 6) else if symbol == 101 then Code(0x5, 5)
    else if symbol == 102 then Code(0x25, 6) else if symbol == 103 then Code(0x26, 6)
    else if symbol == 104 then Code(0x27, 6) else if symbol == 105 then Code(0x6, 5)
    else if symbol == 106 then Code(0x74, 7) else if symbol == 107 then Code(0x75, 7)
    else if symbol == 108 then Code(0x28, 6) else if symbol == 109 then Code(0x29, 6)
    else if symbol == 110 then Code(0x2a, 6) else Code(0x7, 5)
  }

  function Row112(symbol: nat): Code {
    if symbol == 112 then Code(0x2b, 6) else if symbol == 113 then Code(0x76, 7)
    else if symbol == 114 then Code(0x2c, 6) else if symbol == 115 then Code(0x8, 5)
    else if symbol == 116 then Code(0x9, 5) else if symbol == 117 then Code(0x2d, 6)
    else if symbol == 118 then Code(0x77, 7) else if symbol == 119 then Code(0x78, 7)
    else if symbol == 120 then Code(0x79, 7) else if symbol == 121 then Code(0x7a, 7)
    else if symbol == 122 then Code(0x7b, 7) else if symbol == 123 then Code(0x7ffe, 15)
    else if symbol == 124 then Code(0x7fc, 11) else if symbol == 125 then Code(0x3ffd, 14)
    else if symbol == 126 then Code(0x1ffd, 13) else Code(0xffffffc, 28)
  }

  function Row128(symbol: nat): Code {
    if symbol == 128 then Code(0xfffe6, 20) else if symbol == 129 then Code(0x3fffd2, 22)
    else if symbol == 130 then Code(0xfffe7, 20) else if symbol == 131 then Code(0xfffe8, 20)
    else if symbol == 132 then Code(0x3fffd3, 22) else if symbol == 133 then Code(0x3fffd4, 22)
    else if symbol == 134 then Code(0x3fffd5, 22) else if symbol == 135 then Code(0x7fffd9, 23)
    else if symbol == 136 then Code(0x3fffd6, 22) else if symbol == 137 then Code(0x7fffda, 23)
    else if symbol == 138 then Code(0x7fffdb, 23) else if symbol == 139 then Code(0x7fffdc, 23)
    else if symbol == 140 then Code(0x7fffdd, 23) else if symbol == 141 then Code(0x7fffde, 23)
    else if symbol == 142 then Code(0xffffeb, 24) else Code(0x7fffdf, 23)
  }

  function Row144(symbol: nat): Code {
    if symbol == 144 then Code(0xffffec, 24) else if symbol == 145 then Code(0xffffed, 24)
    else if symbol == 146 then Code(0x3fffd7, 22) else if symbol == 147 then Code(0x7fffe0, 23)
    else if symbol == 148 then Code(0xffffee, 24) else if symbol == 149 then Code(0x7fffe1, 23)
    else if symbol == 150 then Code(0x7fffe2, 23) else if symbol == 151 then Code(0x7fffe3, 23)
    else if symbol == 152 then Code(0x7fffe4, 23) else if symbol == 153 then Code(0x1fffdc, 21)
    else if symbol == 154 then Code(0x3fffd8, 22) else if symbol == 155 then Code(0x7fffe5, 23)
    else if symbol == 156 then Code(0x3fffd9, 22) else if symbol == 157 then Code(0x7fffe6, 23)
    else if symbol == 158 then Code(0x7fffe7, 23) else Code(0xffffef, 24)
  }

  function Row160(symbol: nat): Code {
    if symbol == 160 then Code(0x3fffda, 22) else if symbol == 161 then Code(0x1fffdd, 21)
    else if symbol == 162 then Code(0xfffe9, 20) else if symbol == 163 then Code(0x3fffdb, 22)
    else if symbol == 164 then Code(0x3fffdc, 22) else if symbol == 165 then Code(0x7fffe8, 23)
    else if symbol == 166 then Code(0x7fffe9, 23) else if symbol == 167 then Code(0x1fffde, 21)
    else if symbol == 168 then Code(0x7fffea, 23) else if symbol == 169 then Code(0x3fffdd, 22)
    else if symbol == 170 then Code(0x3fffde, 22) else if symbol == 171 then Code(0xfffff0, 24)
    else if symbol == 172 then Code(0x1fffdf, 21) else if symbol == 173 then Code(0x3fffdf, 22)
    else if symbol == 174 then Code(0x7fffeb, 23) else Code(0x7fffec, 23)
  }

  function Row176(symbol: nat): Code {
    if symbol == 176 then Code(0x1fffe0, 21) else if symbol == 177 then Code(0x1fffe1, 21)
    else if symbol == 178 then Code(0x3fffe0, 22) else if symbol == 179 then Code(0x1fffe2, 21)
    else if symbol == 180 then Code(0x7fffed, 23) else if symbol == 181 then Code(0x3fffe1, 22)
    else if symbol == 182 then Code(0x7fffee, 23) else if symbol == 183 then Code(0x7fffef, 23)
    else if symbol == 184 then Code(0xfffea, 20) else if symbol == 185 then Code(0x3fffe2, 22)
    else if symbol == 186 then Code(0x3fffe3, 22) else if symbol == 187 then Code(0x3fffe4, 22)
    else if symbol == 188 then Code(0x7ffff0, 23) else if symbol == 189 then Code(0x3fffe5, 22)
    else if symbol == 190 then Code(0x3fffe6, 22) else Code(0x7ffff1, 23)
  }

  function Row192(symbol: nat): Code {
    if symbol == 192 then Code(0x3ffffe0, 26) else if symbol == 193 then Code(0x3ffffe1, 26)
    else if symbol == 194 then Code(0xfffeb, 20) else if symbol == 195 then Code(0x7fff1, 19)
    else if symbol == 196 then Code(0x3fffe7, 22) else if symbol == 197 then Code(0x7ffff2, 23)
    else if symbol == 198 then Code(0x3fffe8, 22) else if symbol == 199 then Code(0x1ffffec, 25)
    else if symbol == 200 then Code(0x3ffffe2, 26) else if symbol == 201 then Code(0x3ffffe3, 26)
    else if symbol == 202 then Code(0x3ffffe4, 26) else if symbol == 203 then Code(0x7ffffde, 27)
    else if symbol == 204 then Code(0x7ffffdf, 27) else if symbol == 205 then Code(0x3ffffe5, 26)
    else if symbol == 206 then Code(0xfffff1, 24) else Code(0x1ffffed, 25)
  }

  function Row208(symbol: nat): Code {
    if symbol == 208 then Code(0x7fff2, 19) else if symbol == 209 then Code(0x1fffe3, 21)
    else if symbol == 210 then Code(0x3ffffe6, 26) else if symbol == 211 then Code(0x7ffffe0, 27)
    else if symbol == 212 then Code(0x7ffffe1, 27) else if symbol == 213 then Code(0x3ffffe7, 26)
    else if symbol == 214 then Code(0x7ffffe2, 27) else if symbol == 215 then Code(0xfffff2, 24)
    else if symbol == 216 then Code(0x1fffe4, 21) else if symbol == 217 then Code(0x1fffe5, 21)
    else if symbol == 218 then Code(0x3ffffe8, 26) else if symbol == 219 then Code(0x3ffffe9, 26)
    else if symbol == 220 then Code(0xffffffd, 28) else if symbol == 221 then Code(0x7ffffe3, 27)
    else if symbol == 222 then Code(0x7ffffe4, 27) else Code(0x7ffffe5, 27)
  }

  function Row224(symbol: nat): Code {
    if symbol == 224 then Code(0xfffec, 20) else if symbol == 225 then Code(0xfffff3, 24)
    else if symbol == 226 then Code(0xfffed, 20) else if symbol == 227 then Code(0x1fffe6, 21)
    else if symbol == 228 then Code(0x3fffe9, 22) else if symbol == 229 then Code(0x1fffe7, 21)
    else if symbol == 230 then Code(0x1fffe8, 21) else if symbol == 231 then Code(0x7ffff3, 23)
    else if symbol == 232 then Code(0x3fffea, 22) else if symbol == 233 then Code(0x3fffeb, 22)
    else if symbol == 234 then Code(0x1ffffee, 25) else if symbol == 235 then Code(0x1ffffef, 25)
    else if symbol == 236 then Code(0xfffff4, 24) else if symbol == 237 then Code(0xfffff5, 24)
    else if symbol == 238 then Code(0x3ffffea, 26) else Code(0x7ffff4, 23)
  }

  function Row240(symbol: nat): Code {
    if symbol == 240 then Code(0x3ffffeb, 26) else if symbol == 241 then Code(0x7ffffe6, 27)
    else if symbol == 242 then Code(0x3ffffec, 26) else if symbol == 243 then Code(0x3ffffed, 26)
    else if symbol == 244 then Code(0x7ffffe7, 27) else if symbol == 245 then Code(0x7ffffe8, 27)
    else if symbol == 246 then Code(0x7ffffe9, 27) else if symbol == 247 then Code(0x7ffffea, 27)
    else if symbol == 248 then Code(0x7ffffeb, 27) else if symbol == 249 then Code(0xffffffe, 28)
    else if symbol == 250 then Code(0x7ffffec, 27) else if symbol == 251 then Code(0x7ffffed, 27)
    else if symbol == 252 then Code(0x7ffffee, 27) else if symbol == 253 then Code(0x7ffffef, 27)
    else if symbol == 254 then Code(0x7fffff0, 27) else Code(0x3ffffee, 26)
  }

  /** The codes of each length are consecutive: the first, and how many. */
  function First(length: nat): nat {
    if length <= 4 then 0x0
    else if length == 5 then 0x0
    else if length == 6 then 0x14
    else if length == 7 then 0x5c
    else if length == 8 then 0xf8
    else if length == 9 then 0x1fc
    else if length == 10 then 0x3f8
    else if length == 11 then 0x7fa
    else if length == 12 then 0xffa
    else if length == 13 then 0x1ff8
    else if length == 14 then 0x3ffc
    else if length == 15 then 0x7ffc
    else if length == 16 then 0xfffe
    else if length == 17 then 0x1fffc
    else if length == 18 then 0x3fff8
    else if length == 19 then 0x7fff0
    else if length == 20 then 0xfffe6
    else if length == 21 then 0x1fffdc
    else if length == 22 then 0x3fffd2
    else if length == 23 then 0x7fffd8
    else if length == 24 then 0xffffea
    else if length == 25 then 0x1ffffec
    else if length == 26 then 0x3ffffe0
    else if length == 27 then 0x7ffffde
    else if length == 28 then 0xfffffe2
    else if length == 29 then 0x1ffffffe
    else 0x3ffffffc
  }

  function Count(length: nat): nat {
    if length == 5 then 10
    else if length == 6 then 26
    else if length == 7 then 32
    else if length == 8 then 6
    else if length == 10 then 5
    else if length == 11 then 3
    else if length == 12 then 2
    else if length == 13 then 6
    else if length == 14 then 2
    else if length == 15 then 3
    else if length == 19 then 3
    else if length == 20 then 8
    else if length == 21 then 13
    else if length == 22 then 26
    else if length == 23 then 29
    else if length == 24 then 12
    else if length == 25 then 4
    else if length == 26 then 15
    else if length == 27 then 19
    else if length == 28 then 29
    else if length == 30 then 4
    else 0
  }

  function End(length: nat): nat {
    First(length) + Count(length)
  }

  predicate InGroup(code: Code) {
    First(code.length) <= code.point < End(code.length)
  }

  /** The symbol of a code: the inverse of the table on the codes it uses. */
  function SymbolOf(code: Code): nat {
    if code.length == 5 then Symbol5(code.point)
    else if code.length == 6 then Symbol6(code.point)
    else if code.length == 7 then Symbol7(code.point)
    else if code.length == 8 then Symbol8(code.point)
    else if code.length == 10 then Symbol10(code.point)
    else if code.length == 11 then Symbol11(code.point)
    else if code.length == 12 then Symbol12(code.point)
    else if code.length == 13 then Symbol13(code.point)
    else if code.length == 14 then Symbol14(code.point)
    else if code.length == 15 then Symbol15(code.point)
    else if code.length == 19 then Symbol19(code.point)
    else if code.length == 20 then Symbol20(code.point)
    else if code.length == 21 then Symbol21(code.point)
    else if code.length == 22 then Symbol22(code.point)
    else if code.length == 23 then Symbol23(code.point)
    else if code.length == 24 then Symbol24(code.point)
    else if code.length == 25 then Symbol25(code.point)
    else if code.length == 26 then Symbol26(code.point)
    else if code.length == 27 then Symbol27(code.point)
    else if code.length == 28 then Symbol28(code.point)
    else Symbol30(code.point)
  }

  function Symbol5(point: nat): nat {
    if point == 0x0 then 48 else if point == 0x1 then 49 else if point == 0x2 then 50
    else if point == 0x3 then 97 else if point == 0x4 then 99 else if point == 0x5 then 101
    else if point == 0x6 then 105 else if point == 0x7 then 111 else if point == 0x8 then 115
    else 116
  }

  function Symbol6(point: nat): nat {
    if point == 0x14 then 32 else if point == 0x15 then 37 else if point == 0x16 then 45
    else if point == 0x17 then 46 else if point == 0x18 then 47 else if point == 0x19 then 51
    else if point == 0x1a then 52 else if point == 0x1b then 53 else if point == 0x1c then 54
    else if point == 0x1d then 55 else if point == 0x1e then 56 else if point == 0x1f then 57
    else if point == 0x20 then 61 else if point == 0x21 then 65 else if point == 0x22 then 95
    else if point == 0x23 then 98 else if point == 0x24 then 100 else if point == 0x25 then 102
    else if point == 0x26 then 103 else if point == 0x27 then 104 else if point == 0x28 then 108
    else if point == 0x29 then 109 else if point == 0x2a then 110 else if point == 0x2b then 112
    else if point == 0x2c then 114 else 117
  }

  function Symbol7(point: nat): nat {
    if point == 0x5c then 58 else if point == 0x5d then 66 else if point == 0x5e then 67
    else if point == 0x5f then 68 else if point == 0x60 then 69 else if point == 0x61 then 70
    else if point == 0x62 then 71 else if point == 0x63 then 72 else if point == 0x64 then 73
    else if point == 0x65 then 74 else if point == 0x66 then 75 else if point == 0x67 then 76
    else if point == 0x68 then 77 else if point == 0x69 then 78 else if point == 0x6a then 79
    else if point == 0x6b then 80 else if point == 0x6c then 81 else if point == 0x6d then 82
    else if point == 0x6e then 83 else if point == 0x6f then 84 else if point == 0x70 then 85
    else if point == 0x71 then 86 else if point == 0x72 then 87 else if point == 0x73 then 89
    else if point == 0x74 then 106 else if point == 0x75 then 107 else if point == 0x76 then 113
    else if point == 0x77 then 118 else if point == 0x78 then 119 else if point == 0x79 then 120
    else if point == 0x7a then 121 else 122
  }

  function Symbol8(point: nat): nat {
    if point == 0xf8 then 38 else if point == 0xf9 then 42 else if point == 0xfa then 44
    else if point == 0xfb then 59 else if point == 0xfc then 88 else 90
  }

  function Symbol10(point: nat): nat {
    if point == 0x3f8 then 33 else if point == 0x3f9 then 34 else if point == 0x3fa then 40
    else if point == 0x3fb then 41 else 63
  }

  function Symbol11(point: nat): nat {
    if point == 0x7fa then 39 else if point == 0x7fb then 43 else 124
  }

  function Symbol12(point: nat): nat {
    if point == 0xffa then 35 else 62
  }

  function Symbol13(point: nat): nat {
    if point == 0x1ff8 then 0 else if point == 0x1ff9 then 36 else if point == 0x1ffa then 64
    else if point == 0x1ffb then 91 else if point == 0x1ffc then 93 else 126
  }

  function Symbol14(point: nat): nat {
    if point == 0x3ffc then 94 else 125
  }

  function Symbol15(point: nat): nat {
    if point == 0x7ffc then 60 else if point == 0x7ffd then 96 else 123
  }

  function Symbol19(point: nat): nat {
    if point == 0x7fff0 then 92 else if point == 0x7fff1 then 195 else 208
  }

  function Symbol20(point: nat): nat {
    if point == 0xfffe6 then 128 else if point == 0xfffe7 then 130 else if point == 0xfffe8 then 131
    else if point == 0xfffe9 then 162 else if point == 0xfffea then 184 else if point == 0xfffeb then 194
    else if point == 0xfffec then 224 else 226
  }

  function Symbol21(point: nat): nat {
    if point == 0x1fffdc then 153 else if point == 0x1fffdd then 161 else if point == 0x1fffde then 167
    else if point == 0x1fffdf then 172 else if point == 0x1fffe0 then 176 else if point == 0x1fffe1 then 177
    else if point == 0x1fffe2 then 179 else if point == 0x1fffe3 then 209 else if point == 0x1fffe4 then 216
    else if point == 0x1fffe5 then 217 else if point == 0x1fffe6 then 227 else if point == 0x1fffe7 then 229
    else 230
  }

  function Symbol22(point: nat): nat {
    if point == 0x3fffd2 then 129 else if point == 0x3fffd3 then 132 else if point == 0x3fffd4 then 133
    else if point == 0x3fffd5 then 134 else if point == 0x3fffd6 then 136 else if point == 0x3fffd7 then 146
    else if point == 0x3fffd8 then 154 else if point == 0x3fffd9 then 156 else if point == 0x3fffda then 160
    else if point == 0x3fffdb then 163 else if point == 0x3fffdc then 164 else if point == 0x3fffdd then 169
    else if point == 0x3fffde then 170 else if point == 0x3fffdf then 173 else if point == 0x3fffe0 then 178
    else if point == 0x3fffe1 then 181 else if point == 0x3fffe2 then 185 else if point == 0x3fffe3 then 186
    else if point == 0x3fffe4 then 187 else if point == 0x3fffe5 then 189 else if point == 0x3fffe6 then 190
    else if point == 0x3fffe7 then 196 else if point == 0x3fffe8 then 198 else if point == 0x3fffe9 then 228
    else if point == 0x3fffea then 232 else 233
  }

  function Symbol23(point: nat): nat {
    if point == 0x7fffd8 then 1 else if point == 0x7fffd9 then 135 else if point == 0x7fffda then 137
    else if point == 0x7fffdb then 138 else if point == 0x7fffdc then 139 else if point == 0x7fffdd then 140
    else if point == 0x7fffde then 141 else if point == 0x7fffdf then 143 else if point == 0x7fffe0 then 147
    else if point == 0x7fffe1 then 149 else if point == 0x7fffe2 then 150 else if point == 0x7fffe3 then 151
    else if point == 0x7fffe4 then 152 else if point == 0x7fffe5 then 155 else if point == 0x7fffe6 then 157
    else if point == 0x7fffe7 then 158 else if point == 0x7fffe8 then 165 else if point == 0x7fffe9 then 166
    else if point == 0x7fffea then 168 else if point == 0x7fffeb then 174 else if point == 0x7fffec then 175
    else if point == 0x7fffed then 180 else if point == 0x7fffee then 182 else if point == 0x7fffef then 183
    else if point == 0x7ffff0 then 188 else if point == 0x7ffff1 then 191 else if point == 0x7ffff2 then 197
    else if point == 0x7ffff3 then 231 else 239
  }

  function Symbol24(point: nat): nat {
    if point == 0xffffea then 9 else if point == 0xffffeb then 142 else if point == 0xffffec then 144
    else if point == 0xffffed then 145 else if point == 0xffffee then 148 else if point == 0xffffef then 159
    else if point == 0xfffff0 then 171 else if point == 0xfffff1 then 206 else if point == 0xfffff2 then 215
    else if point == 0xfffff3 then 225 else if point == 0xfffff4 then 236 else 237
  }

  function Symbol25(point: nat): nat {
    if point == 0x1ffffec then 199 else if point == 0x1ffffed then 207 else if point == 0x1ffffee then 234
    else 235
  }

  function Symbol26(point: nat): nat {
    if point == 0x3ffffe0 then 192 else if point == 0x3ffffe1 then 193 else if point == 0x3ffffe2 then 200
    else if point == 0x3ffffe3 then 201 else if point == 0x3ffffe4 then 202 else if point == 0x3ffffe5 then 205
    else if point == 0x3ffffe6 then 210 else if point == 0x3ffffe7 then 213 else if point == 0x3ffffe8 then 218
    else if point == 0x3ffffe9 then 219 else if point == 0x3ffffea then 238 else if point == 0x3ffffeb then 240
    else if point == 0x3ffffec then 242 else if point == 0x3ffffed then 243 else 255
  }

  function Symbol27(point: nat): nat {
    if point == 0x7ffffde then 203 else if point == 0x7ffffdf then 204 else if point == 0x7ffffe0 then 211
    else if point == 0x7ffffe1 then 212 else if point == 0x7ffffe2 then 214 else if point == 0x7ffffe3 then 221
    else if point == 0x7ffffe4 then 222 else if point == 0x7ffffe5 then 223 else if point == 0x7ffffe6 then 241
    else if point == 0x7ffffe7 then 244 else if point == 0x7ffffe8 then 245 else if point == 0x7ffffe9 then 246
    else if point == 0x7ffffea then 247 else if point == 0x7ffffeb then 248 else if point == 0x7ffffec then 250
    else if point == 0x7ffffed then 251 else if point == 0x7ffffee then 252 else if point == 0x7ffffef then 253
    else 254
  }

  function Symbol28(point: nat): nat {
    if point == 0xfffffe2 then 2 else if point == 0xfffffe3 then 3 else if point == 0xfffffe4 then 4
    else if point == 0xfffffe5 then 5 else if point == 0xfffffe6 then 6 else if point == 0xfffffe7 then 7
    else if point == 0xfffffe8 then 8 else if point == 0xfffffe9 then 11 else if point == 0xfffffea then 12
    else if point == 0xfffffeb then 14 else if point == 0xfffffec then 15 else if point == 0xfffffed then 16
    else if point == 0xfffffee then 17 else if point == 0xfffffef then 18 else if point == 0xffffff0 then 19
    else if point == 0xffffff1 then 20 else if point == 0xffffff2 then 21 else if point == 0xffffff3 then 23
    else if point == 0xffffff4 then 24 else if point == 0xffffff5 then 25 else if point == 0xffffff6 then 26
    else if point == 0xffffff7 then 27 else if point == 0xffffff8 then 28 else if point == 0xffffff9 then 29
    else if point == 0xffffffa then 30 else if point == 0xffffffb then 31 else if point == 0xffffffc then 127
    else if point == 0xffffffd then 220 else 249
  }

  function Symbol30(point: nat): nat {
    if point == 0x3ffffffc then 10 else if point == 0x3ffffffd then 13 else if point == 0x3ffffffe then 22
    else 256
  }

  /** The table and the inverse agree on a symbol, whose code is in its group. */
  predicate SymbolLinked(symbol: nat) {
    var code := Entry(symbol);
    InGroup(code) && SymbolOf(code) == symbol
  }

  /** The table and the inverse agree on a code. */
  predicate CodeLinked(length: nat, point: nat) {
    var symbol := SymbolOf(Code(point, length));
    symbol <= EOS && Entry(symbol) == Code(point, length)
  }

  lemma Row0Linked(symbol: nat)
    requires 0 <= symbol < 16
    ensures SymbolLinked(symbol)
  {}

  lemma Row16Linked(symbol: nat)
    requires 16 <= symbol < 32
    ensures SymbolLinked(symbol)
  {}

  lemma Row32Linked(symbol: nat)
    requires 32 <= symbol < 48
    ensures SymbolLinked(symbol)
  {}

  lemma Row48Linked(symbol: nat)
    requires 48 <= symbol < 64
    ensures SymbolLinked(symbol)
  {}

  lemma Row64Linked(symbol: nat)
    requires 64 <= symbol < 80
    ensures SymbolLinked(symbol)
  {}

  lemma Row80Linked(symbol: nat)
    requires 80 <= symbol < 96
    ensures SymbolLinked(symbol)
  {}

  lemma Row96Linked(symbol: nat)
    requires 96 <= symbol < 112
    ensures SymbolLinked(symbol)
  {}

  lemma Row112Linked(symbol: nat)
    requires 112 <= symbol < 128
    ensures SymbolLinked(symbol)
  {}

  lemma Row128Linked(symbol: nat)
    requires 128 <= symbol < 144
    ensures SymbolLinked(symbol)
  {}

  lemma Row144Linked(symbol: nat)
    requires 144 <= symbol < 160
    ensures SymbolLinked(symbol)
  {}

  lemma Row160Linked(symbol: nat)
    requires 160 <= symbol < 176
    ensures SymbolLinked(symbol)
  {}

  lemma Row176Linked(symbol: nat)
    requires 176 <= symbol < 192
    ensures SymbolLinked(symbol)
  {}

  lemma Row192Linked(symbol: nat)
    requires 192 <= symbol < 208
    ensures SymbolLinked(symbol)
  {}

  lemma Row208Linked(symbol: nat)
    requires 208 <= symbol < 224
    ensures SymbolLinked(symbol)
  {}

  lemma Row224Linked(symbol: nat)
    requires 224 <= symbol < 240
    ensures SymbolLinked(symbol)
  {}

  lemma Row240Linked(symbol: nat)
    requires 240 <= symbol < 256
    ensures SymbolLinked(symbol)
  {}

  /** Every symbol is recovered from its code. */
  lemma SymbolsLinked(symbol: nat)
    requires symbol <= EOS
    ensures SymbolLinked(symbol)
  {
    if symbol < 16 {
      Row0Linked(symbol);
    } else if symbol < 32 {
      Row16Linked(symbol);
    } else if symbol < 48 {
      Row32Linked(symbol);
    } else if symbol < 64 {
      Row48Linked(symbol);
    } else if symbol < 80 {
      Row64Linked(symbol);
    } else if symbol < 96 {
      Row80Linked(symbol);
    } else if symbol < 112 {
      Row96Linked(symbol);
    } else if symbol < 128 {
      Row112Linked(symbol);
    } else if symbol < 144 {
      Row128Linked(symbol);
    } else if symbol < 160 {
      Row144Linked(symbol);
    } else if symbol < 176 {
      Row160Linked(symbol);
    } else if symbol < 192 {
      Row176Linked(symbol);
    } else if symbol < 208 {
      Row192Linked(symbol);
    } else if symbol < 224 {
      Row208Linked(symbol);
    } else if symbol < 240 {
      Row224Linked(symbol);
    } else if symbol < 256 {
      Row240Linked(symbol);
    }
  }

  lemma Length5Linked(point: nat)
    requires First(5) <= point < End(5)
    ensures CodeLinked(5, point)
  {}

  lemma Length6Linked(point: nat)
    requires First(6) <= point < End(6)
    ensures CodeLinked(6, point)
  {}

  lemma Length7Linked(point: nat)
    requires First(7) <= point < End(7)
    ensures CodeLinked(7, point)
  {}

  lemma Length8Linked(point: nat)
    requires First(8) <= point < End(8)
    ensures CodeLinked(8, point)
  {}

  lemma Length10Linked(point: nat)
    requires First(10) <= point < End(10)
    ensures CodeLinked(10, point)
  {}

  lemma Length11Linked(point: nat)
    requires First(11) <= point < End(11)
    ensures CodeLinked(11, point)
  {}

  lemma Length12Linked(point: nat)
    requires First(12) <= point < End(12)
    ensures CodeLinked(12, point)
  {}

  lemma Length13Linked(point: nat)
    requires First(13) <= point < End(13)
    ensures CodeLinked(13, point)
  {}

  lemma Length14Linked(point: nat)
    requires First(14) <= point < End(14)
    ensures CodeLinked(14, point)
  {}

  lemma Length15Linked(point: nat)
    requires First(15) <= point < End(15)
    ensures CodeLinked(15, point)
  {}

  lemma Length19Linked(point: nat)
    requires First(19) <= point < End(19)
    ensures CodeLinked(19, point)
  {}

  lemma Length20Linked(point: nat)
    requires First(20) <= point < End(20)
    ensures CodeLinked(20, point)
  {}

  lemma Length21Linked(point: nat)
    requires First(21) <= point < End(21)
    ensures CodeLinked(21, point)
  {}

  lemma Length22Linked(point: nat)
    requires First(22) <= point < End(22)
    ensures CodeLinked(22, point)
  {}

  lemma Length23Linked(point: nat)
    requires First(23) <= point < End(23)
    ensures CodeLinked(23, point)
  {}

  lemma Length24Linked(point: nat)
    requires First(24) <= point < End(24)
    ensures CodeLinked(24, point)
  {}

  lemma Length25Linked(point: nat)
    requires First(25) <= point < End(25)
    ensures CodeLinked(25, point)
  {}

  lemma Length26Linked(point: nat)
    requires First(26) <= point < End(26)
    ensures CodeLinked(26, point)
  {}

  lemma Length27Linked(point: nat)
    requires First(27) <= point < End(27)
    ensures CodeLinked(27, point)
  {}

  lemma Length28Linked(point: nat)
    requires First(28) <= point < End(28)
    ensures CodeLinked(28, point)
  {}

  lemma Length30Linked(point: nat)
    requires First(30) <= point < End(30)
    ensures CodeLinked(30, point)
  {}

  /** Every code of a group belongs to a symbol. */
  lemma CodesLinked(code: Code)
    requires code.length <= 30 && InGroup(code)
    ensures CodeLinked(code.length, code.point)
  {
    if code.length == 5 {
      Length5Linked(code.point);
    } else if code.length == 6 {
      Length6Linked(code.point);
    } else if code.length == 7 {
      Length7Linked(code.point);
    } else if code.length == 8 {
      Length8Linked(code.point);
    } else if code.length == 10 {
      Length10Linked(code.point);
    } else if code.length == 11 {
      Length11Linked(code.point);
    } else if code.length == 12 {
      Length12Linked(code.point);
    } else if code.length == 13 {
      Length13Linked(code.point);
    } else if code.length == 14 {
      Length14Linked(code.point);
    } else if code.length == 15 {
      Length15Linked(code.point);
    } else if code.length == 19 {
      Length19Linked(code.point);
    } else if code.length == 20 {
      Length20Linked(code.point);
    } else if code.length == 21 {
      Length21Linked(code.point);
    } else if code.length == 22 {
      Length22Linked(code.point);
    } else if code.length == 23 {
      Length23Linked(code.point);
    } else if code.length == 24 {
      Length24Linked(code.point);
    } else if code.length == 25 {
      Length25Linked(code.point);
    } else if code.length == 26 {
      Length26Linked(code.point);
    } else if code.length == 27 {
      Length27Linked(code.point);
    } else if code.length == 28 {
      Length28Linked(code.point);
    } else if code.length == 30 {
      Length30Linked(code.point);
    }
  }

  /** The code is canonical: each length starts at twice the end of the previous. */
  lemma Canonical(length: nat)
    requires length < 30
    ensures First(length + 1) == 2 * End(length)
  {}
}
