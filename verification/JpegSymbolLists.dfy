/** The two AC symbol lists as they stand in the source, and where each symbol stands last. */
module JpegSymbolLists {

  // ----- The AC symbol lists, entry by entry

  function AcLumVal(k: int): int {
    if k < 30 then AcLumVal0(k)
    else if k < 60 then AcLumVal1(k)
    else if k < 90 then AcLumVal2(k)
    else if k < 120 then AcLumVal3(k)
    else AcLumVal4(k)
  }

  function AcLumVal0(k: int): int {
    match k
    case 0 => 0x01 case 1 => 0x02 case 2 => 0x03 case 3 => 0x00 case 4 => 0x04 case 5 => 0x11
    case 6 => 0x05 case 7 => 0x12 case 8 => 0x21 case 9 => 0x31 case 10 => 0x41 case 11 => 0x06
    case 12 => 0x13 case 13 => 0x51 case 14 => 0x61 case 15 => 0x07 case 16 => 0x22 case 17 => 0x71
    case 18 => 0x14 case 19 => 0x32 case 20 => 0x81 case 21 => 0x91 case 22 => 0xa1 case 23 => 0x08
    case 24 => 0x23 case 25 => 0x42 case 26 => 0xb1 case 27 => 0xc1 case 28 => 0x15 case 29 => 0x52
    case _ => 0
  }

  function AcLumVal1(k: int): int {
    match k
    case 30 => 0xd1 case 31 => 0xf0 case 32 => 0x24 case 33 => 0x33 case 34 => 0x62 case 35 => 0x72
    case 36 => 0x82 case 37 => 0x09 case 38 => 0x0a case 39 => 0x16 case 40 => 0x17 case 41 => 0x18
    case 42 => 0x19 case 43 => 0x1a case 44 => 0x25 case 45 => 0x26 case 46 => 0x27 case 47 => 0x28
    case 48 => 0x29 case 49 => 0x2a case 50 => 0x34 case 51 => 0x35 case 52 => 0x36 case 53 => 0x37
    case 54 => 0x38 case 55 => 0x39 case 56 => 0x3a case 57 => 0x43 case 58 => 0x44 case 59 => 0x45
    case _ => 0
  }

  function AcLumVal2(k: int): int {
    match k
    case 60 => 0x46 case 61 => 0x47 case 62 => 0x48 case 63 => 0x49 case 64 => 0x4a case 65 => 0x53
    case 66 => 0x54 case 67 => 0x55 case 68 => 0x56 case 69 => 0x57 case 70 => 0x58 case 71 => 0x59
    case 72 => 0x5a case 73 => 0x63 case 74 => 0x64 case 75 => 0x65 case 76 => 0x66 case 77 => 0x67
    case 78 => 0x68 case 79 => 0x69 case 80 => 0x6a case 81 => 0x73 case 82 => 0x74 case 83 => 0x75
    case 84 => 0x76 case 85 => 0x77 case 86 => 0x78 case 87 => 0x79 case 88 => 0x7a case 89 => 0x83
    case _ => 0
  }

  function AcLumVal3(k: int): int {
    match k
    case 90 => 0x84 case 91 => 0x85 case 92 => 0x86 case 93 => 0x87 case 94 => 0x88 case 95 => 0x89
    case 96 => 0x8a case 97 => 0x92 case 98 => 0x93 case 99 => 0x94 case 100 => 0x95 case 101 => 0x96
    case 102 => 0x97 case 103 => 0x98 case 104 => 0x99 case 105 => 0x9a case 106 => 0xa2 case 107 => 0xa3
    case 108 => 0xa4 case 109 => 0xa5 case 110 => 0xa6 case 111 => 0xa7 case 112 => 0xa8 case 113 => 0xa9
    case 114 => 0xaa case 115 => 0xb2 case 116 => 0xb3 case 117 => 0xb4 case 118 => 0xb5 case 119 => 0xb6
    case _ => 0
  }

  function AcLumVal4(k: int): int {
    match k
    case 120 => 0xb7 case 121 => 0xb8 case 122 => 0xb9 case 123 => 0xba case 124 => 0xc2 case 125 => 0xc3
    case 126 => 0xc4 case 127 => 0xc5 case 128 => 0xc6 case 129 => 0xc7 case 130 => 0xc8 case 131 => 0xc9
    case 132 => 0xca case 133 => 0xd2 case 134 => 0xd3 case 135 => 0xd4 case 136 => 0xd5 case 137 => 0xd6
    case 138 => 0xd7 case 139 => 0xd8 case 140 => 0xd9 case 141 => 0xda case 142 => 0xe1 case 143 => 0xe2
    case 144 => 0xe3 case 145 => 0xe4 case 146 => 0xe5 case 147 => 0xe6 case 148 => 0xe7 case 149 => 0xe8
    case 150 => 0xe9 case 151 => 0xea case 152 => 0xf1 case 153 => 0xf2 case 154 => 0xf3 case 155 => 0xf4
    case 156 => 0xf5 case 157 => 0xf6 case 158 => 0xf7 case 159 => 0xf8 case 160 => 0xf9 case 161 => 0xfa
    case _ => 0
  }

  function AcChrVal(k: int): int {
    if k < 30 then AcChrVal0(k)
    else if k < 60 then AcChrVal1(k)
    else if k < 90 then AcChrVal2(k)
    else if k < 120 then AcChrVal3(k)
    else AcChrVal4(k)
  }

  function AcChrVal0(k: int): int {
    match k
    case 0 => 0x00 case 1 => 0x01 case 2 => 0x02 case 3 => 0x03 case 4 => 0x11 case 5 => 0x04
    case 6 => 0x05 case 7 => 0x21 case 8 => 0x31 case 9 => 0x06 case 10 => 0x12 case 11 => 0x41
    case 12 => 0x51 case 13 => 0x07 case 14 => 0x61 case 15 => 0x71 case 16 => 0x13 case 17 => 0x22
    case 18 => 0x32 case 19 => 0x81 case 20 => 0x08 case 21 => 0x14 case 22 => 0x42 case 23 => 0x91
    case 24 => 0xa1 case 25 => 0xb1 case 26 => 0xc1 case 27 => 0x09 case 28 => 0x23 case 29 => 0x33
    case _ => 0
  }

  function AcChrVal1(k: int): int {
    match k
    case 30 => 0x52 case 31 => 0xf0 case 32 => 0x15 case 33 => 0x62 case 34 => 0x72 case 35 => 0xd1
    case 36 => 0x0a case 37 => 0x16 case 38 => 0x24 case 39 => 0x34 case 40 => 0xe1 case 41 => 0x25
    case 42 => 0xf1 case 43 => 0x17 case 44 => 0x18 case 45 => 0x19 case 46 => 0x1a case 47 => 0x26
    case 48 => 0x27 case 49 => 0x28 case 50 => 0x29 case 51 => 0x2a case 52 => 0x35 case 53 => 0x36
    case 54 => 0x37 case 55 => 0x38 case 56 => 0x39 case 57 => 0x3a case 58 => 0x43 case 59 => 0x44
    case _ => 0
  }

  function AcChrVal2(k: int): int {
    match k
    case 60 => 0x45 case 61 => 0x46 case 62 => 0x47 case 63 => 0x48 case 64 => 0x49 case 65 => 0x4a
    case 66 => 0x53 case 67 => 0x54 case 68 => 0x55 case 69 => 0x56 case 70 => 0x57 case 71 => 0x58
    case 72 => 0x59 case 73 => 0x5a case 74 => 0x63 case 75 => 0x64 case 76 => 0x65 case 77 => 0x66
    case 78 => 0x67 case 79 => 0x68 case 80 => 0x69 case 81 => 0x6a case 82 => 0x73 case 83 => 0x74
    case 84 => 0x75 case 85 => 0x76 case 86 => 0x77 case 87 => 0x78 case 88 => 0x79 case 89 => 0x7a
    case _ => 0
  }

  function AcChrVal3(k: int): int {
    match k
    case 90 => 0x82 case 91 => 0x83 case 92 => 0x84 case 93 => 0x85 case 94 => 0x86 case 95 => 0x87
    case 96 => 0x88 case 97 => 0x89 case 98 => 0x8a case 99 => 0x92 case 100 => 0x93 case 101 => 0x94
    case 102 => 0x95 case 103 => 0x96 case 104 => 0x97 case 105 => 0x98 case 106 => 0x99 case 107 => 0x9a
    case 108 => 0xa2 case 109 => 0xa3 case 110 => 0xa4 case 111 => 0xa5 case 112 => 0xa6 case 113 => 0xa7
    case 114 => 0xa8 case 115 => 0xa9 case 116 => 0xaa case 117 => 0xb2 case 118 => 0xb3 case 119 => 0xb4
    case _ => 0
  }

  function AcChrVal4(k: int): int {
    match k
    case 120 => 0xb5 case 121 => 0xb6 case 122 => 0xb7 case 123 => 0xb8 case 124 => 0xb9 case 125 => 0xba
    case 126 => 0xc2 case 127 => 0xc3 case 128 => 0xc4 case 129 => 0xc5 case 130 => 0xc6 case 131 => 0xc7
    case 132 => 0xc8 case 133 => 0xc9 case 134 => 0xca case 135 => 0xd2 case 136 => 0xd3 case 137 => 0xd4
    case 138 => 0xd5 case 139 => 0xd6 case 140 => 0xd7 case 141 => 0xd8 case 142 => 0xd9 case 143 => 0xda
    case 144 => 0xe1 case 145 => 0xe2 case 146 => 0xe3 case 147 => 0xe4 case 148 => 0xe5 case 149 => 0xe6
    case 150 => 0xe7 case 151 => 0xe8 case 152 => 0xe9 case 153 => 0xea case 154 => 0xf1 case 155 => 0xf2
    case 156 => 0xf3 case 157 => 0xf4 case 158 => 0xf5 case 159 => 0xf6 case 160 => 0xf7 case 161 => 0xf8
    case 162 => 0xf9 case 163 => 0xfa case _ => 0
  }

  /** The last place of each symbol in the list. */
  function AcLumPos(sym: int): int {
    if sym < 0x30 then AcLumPos0(sym)
    else if sym < 0x60 then AcLumPos1(sym)
    else if sym < 0x90 then AcLumPos2(sym)
    else if sym < 0xc0 then AcLumPos3(sym)
    else AcLumPos4(sym)
  }

  function AcLumPos0(sym: int): int {
    match sym
    case 0x00 => 3 case 0x01 => 0 case 0x02 => 1 case 0x03 => 2 case 0x04 => 4 case 0x05 => 6
    case 0x06 => 11 case 0x07 => 15 case 0x08 => 23 case 0x09 => 37 case 0x0a => 38 case 0x11 => 5
    case 0x12 => 7 case 0x13 => 12 case 0x14 => 18 case 0x15 => 28 case 0x16 => 39 case 0x17 => 40
    case 0x18 => 41 case 0x19 => 42 case 0x1a => 43 case 0x21 => 8 case 0x22 => 16 case 0x23 => 24
    case 0x24 => 32 case 0x25 => 44 case 0x26 => 45 case 0x27 => 46 case 0x28 => 47 case 0x29 => 48
    case 0x2a => 49 case _ => 0
  }

  function AcLumPos1(sym: int): int {
    match sym
    case 0x31 => 9 case 0x32 => 19 case 0x33 => 33 case 0x34 => 50 case 0x35 => 51 case 0x36 => 52
    case 0x37 => 53 case 0x38 => 54 case 0x39 => 55 case 0x3a => 56 case 0x41 => 10 case 0x42 => 25
    case 0x43 => 57 case 0x44 => 58 case 0x45 => 59 case 0x46 => 60 case 0x47 => 61 case 0x48 => 62
    case 0x49 => 63 case 0x4a => 64 case 0x51 => 13 case 0x52 => 29 case 0x53 => 65 case 0x54 => 66
    case 0x55 => 67 case 0x56 => 68 case 0x57 => 69 case 0x58 => 70 case 0x59 => 71 case 0x5a => 72
    case _ => 0
  }

  function AcLumPos2(sym: int): int {
    match sym
    case 0x61 => 14 case 0x62 => 34 case 0x63 => 73 case 0x64 => 74 case 0x65 => 75 case 0x66 => 76
    case 0x67 => 77 case 0x68 => 78 case 0x69 => 79 case 0x6a => 80 case 0x71 => 17 case 0x72 => 35
    case 0x73 => 81 case 0x74 => 82 case 0x75 => 83 case 0x76 => 84 case 0x77 => 85 case 0x78 => 86
    case 0x79 => 87 case 0x7a => 88 case 0x81 => 20 case 0x82 => 36 case 0x83 => 89 case 0x84 => 90
    case 0x85 => 91 case 0x86 => 92 case 0x87 => 93 case 0x88 => 94 case 0x89 => 95 case 0x8a => 96
    case _ => 0
  }

  function AcLumPos3(sym: int): int {
    match sym
    case 0x91 => 21 case 0x92 => 97 case 0x93 => 98 case 0x94 => 99 case 0x95 => 100 case 0x96 => 101
    case 0x97 => 102 case 0x98 => 103 case 0x99 => 104 case 0x9a => 105 case 0xa1 => 22 case 0xa2 => 106
    case 0xa3 => 107 case 0xa4 => 108 case 0xa5 => 109 case 0xa6 => 110 case 0xa7 => 111 case 0xa8 => 112
    case 0xa9 => 113 case 0xaa => 114 case 0xb1 => 26 case 0xb2 => 115 case 0xb3 => 116 case 0xb4 => 117
    case 0xb5 => 118 case 0xb6 => 119 case 0xb7 => 120 case 0xb8 => 121 case 0xb9 => 122 case 0xba => 123
    case _ => 0
  }

  function AcLumPos4(sym: int): int {
    match sym
    case 0xc1 => 27 case 0xc2 => 124 case 0xc3 => 125 case 0xc4 => 126 case 0xc5 => 127 case 0xc6 => 128
    case 0xc7 => 129 case 0xc8 => 130 case 0xc9 => 131 case 0xca => 132 case 0xd1 => 30 case 0xd2 => 133
    case 0xd3 => 134 case 0xd4 => 135 case 0xd5 => 136 case 0xd6 => 137 case 0xd7 => 138 case 0xd8 => 139
    case 0xd9 => 140 case 0xda => 141 case 0xe1 => 142 case 0xe2 => 143 case 0xe3 => 144 case 0xe4 => 145
    case 0xe5 => 146 case 0xe6 => 147 case 0xe7 => 148 case 0xe8 => 149 case 0xe9 => 150 case 0xea => 151
    case 0xf0 => 31 case 0xf1 => 152 case 0xf2 => 153 case 0xf3 => 154 case 0xf4 => 155 case 0xf5 => 156
    case 0xf6 => 157 case 0xf7 => 158 case 0xf8 => 159 case 0xf9 => 160 case 0xfa => 161 case _ => 0
  }

  function AcChrPos(sym: int): int {
    if sym < 0x30 then AcChrPos0(sym)
    else if sym < 0x60 then AcChrPos1(sym)
    else if sym < 0x90 then AcChrPos2(sym)
    else if sym < 0xc0 then AcChrPos3(sym)
    else AcChrPos4(sym)
  }

  function AcChrPos0(sym: int): int {
    match sym
    case 0x00 => 0 case 0x01 => 1 case 0x02 => 2 case 0x03 => 3 case 0x04 => 5 case 0x05 => 6
    case 0x06 => 9 case 0x07 => 13 case 0x08 => 20 case 0x09 => 27 case 0x0a => 36 case 0x11 => 4
    case 0x12 => 10 case 0x13 => 16 case 0x14 => 21 case 0x15 => 32 case 0x16 => 37 case 0x17 => 43
    case 0x18 => 44 case 0x19 => 45 case 0x1a => 46 case 0x21 => 7 case 0x22 => 17 case 0x23 => 28
    case 0x24 => 38 case 0x25 => 41 case 0x26 => 47 case 0x27 => 48 case 0x28 => 49 case 0x29 => 50
    case 0x2a => 51 case _ => 0
  }

  function AcChrPos1(sym: int): int {
    match sym
    case 0x31 => 8 case 0x32 => 18 case 0x33 => 29 case 0x34 => 39 case 0x35 => 52 case 0x36 => 53
    case 0x37 => 54 case 0x38 => 55 case 0x39 => 56 case 0x3a => 57 case 0x41 => 11 case 0x42 => 22
    case 0x43 => 58 case 0x44 => 59 case 0x45 => 60 case 0x46 => 61 case 0x47 => 62 case 0x48 => 63
    case 0x49 => 64 case 0x4a => 65 case 0x51 => 12 case 0x52 => 30 case 0x53 => 66 case 0x54 => 67
    case 0x55 => 68 case 0x56 => 69 case 0x57 => 70 case 0x58 => 71 case 0x59 => 72 case 0x5a => 73
    case _ => 0
  }

  function AcChrPos2(sym: int): int {
    match sym
    case 0x61 => 14 case 0x62 => 33 case 0x63 => 74 case 0x64 => 75 case 0x65 => 76 case 0x66 => 77
    case 0x67 => 78 case 0x68 => 79 case 0x69 => 80 case 0x6a => 81 case 0x71 => 15 case 0x72 => 34
    case 0x73 => 82 case 0x74 => 83 case 0x75 => 84 case 0x76 => 85 case 0x77 => 86 case 0x78 => 87
    case 0x79 => 88 case 0x7a => 89 case 0x81 => 19 case 0x82 => 90 case 0x83 => 91 case 0x84 => 92
    case 0x85 => 93 case 0x86 => 94 case 0x87 => 95 case 0x88 => 96 case 0x89 => 97 case 0x8a => 98
    case _ => 0
  }

  function AcChrPos3(sym: int): int {
    match sym
    case 0x91 => 23 case 0x92 => 99 case 0x93 => 100 case 0x94 => 101 case 0x95 => 102 case 0x96 => 103
    case 0x97 => 104 case 0x98 => 105 case 0x99 => 106 case 0x9a => 107 case 0xa1 => 24 case 0xa2 => 108
    case 0xa3 => 109 case 0xa4 => 110 case 0xa5 => 111 case 0xa6 => 112 case 0xa7 => 113 case 0xa8 => 114
    case 0xa9 => 115 case 0xaa => 116 case 0xb1 => 25 case 0xb2 => 117 case 0xb3 => 118 case 0xb4 => 119
    case 0xb5 => 120 case 0xb6 => 121 case 0xb7 => 122 case 0xb8 => 123 case 0xb9 => 124 case 0xba => 125
    case _ => 0
  }

  function AcChrPos4(sym: int): int {
    match sym
    case 0xc1 => 26 case 0xc2 => 126 case 0xc3 => 127 case 0xc4 => 128 case 0xc5 => 129 case 0xc6 => 130
    case 0xc7 => 131 case 0xc8 => 132 case 0xc9 => 133 case 0xca => 134 case 0xd1 => 35 case 0xd2 => 135
    case 0xd3 => 136 case 0xd4 => 137 case 0xd5 => 138 case 0xd6 => 139 case 0xd7 => 140 case 0xd8 => 141
    case 0xd9 => 142 case 0xda => 143 case 0xe1 => 144 case 0xe2 => 145 case 0xe3 => 146 case 0xe4 => 147
    case 0xe5 => 148 case 0xe6 => 149 case 0xe7 => 150 case 0xe8 => 151 case 0xe9 => 152 case 0xea => 153
    case 0xf0 => 31 case 0xf1 => 154 case 0xf2 => 155 case 0xf3 => 156 case 0xf4 => 157 case 0xf5 => 158
    case 0xf6 => 159 case 0xf7 => 160 case 0xf8 => 161 case _ => 0
  }

  lemma LumLocated0(sym: int)
    requires 0x00 <= sym <= 0x0a || 0x11 <= sym <= 0x1a || 0x21 <= sym <= 0x2a || 0x31 <= sym <= 0x3a
    ensures 0 <= AcLumPos(sym) < 162 && AcLumVal(AcLumPos(sym)) == sym
  {}

  lemma LumLocated1(sym: int)
    requires 0x41 <= sym <= 0x4a || 0x51 <= sym <= 0x5a || 0x61 <= sym <= 0x6a || 0x71 <= sym <= 0x7a
    ensures 0 <= AcLumPos(sym) < 162 && AcLumVal(AcLumPos(sym)) == sym
  {}

  lemma LumLocated2(sym: int)
    requires 0x81 <= sym <= 0x8a || 0x91 <= sym <= 0x9a || 0xa1 <= sym <= 0xaa || 0xb1 <= sym <= 0xba
    ensures 0 <= AcLumPos(sym) < 162 && AcLumVal(AcLumPos(sym)) == sym
  {}

  lemma LumLocated3(sym: int)
    requires 0xc1 <= sym <= 0xca || 0xd1 <= sym <= 0xda || 0xe1 <= sym <= 0xea || 0xf0 <= sym <= 0xfa
    ensures 0 <= AcLumPos(sym) < 162 && AcLumVal(AcLumPos(sym)) == sym
  {}

  lemma LumLocated(sym: int)
    requires 0 <= sym < 0x100 && (sym == 0x00 || sym == 0xf0 || 1 <= sym % 16 <= 10)
    ensures 0 <= AcLumPos(sym) < 162 && AcLumVal(AcLumPos(sym)) == sym
  {
    if sym < 0x40 {
      LumLocated0(sym);
    } else if sym < 0x80 {
      LumLocated1(sym);
    } else if sym < 0xc0 {
      LumLocated2(sym);
    } else {
      LumLocated3(sym);
    }
  }

  lemma ChrLocated0(sym: int)
    requires 0x00 <= sym <= 0x0a || 0x11 <= sym <= 0x1a || 0x21 <= sym <= 0x2a || 0x31 <= sym <= 0x3a
    ensures 0 <= AcChrPos(sym) < 162 && AcChrVal(AcChrPos(sym)) == sym
  {}

  lemma ChrLocated1(sym: int)
    requires 0x41 <= sym <= 0x4a || 0x51 <= sym <= 0x5a || 0x61 <= sym <= 0x6a || 0x71 <= sym <= 0x7a
    ensures 0 <= AcChrPos(sym) < 162 && AcChrVal(AcChrPos(sym)) == sym
  {}

  lemma ChrLocated2(sym: int)
    requires 0x81 <= sym <= 0x8a || 0x91 <= sym <= 0x9a || 0xa1 <= sym <= 0xaa || 0xb1 <= sym <= 0xba
    ensures 0 <= AcChrPos(sym) < 162 && AcChrVal(AcChrPos(sym)) == sym
  {}

  lemma ChrLocated3(sym: int)
    requires 0xc1 <= sym <= 0xca || 0xd1 <= sym <= 0xda || 0xe1 <= sym <= 0xea || 0xf0 <= sym <= 0xf8
    ensures 0 <= AcChrPos(sym) < 162 && AcChrVal(AcChrPos(sym)) == sym
  {}

  lemma ChrLocated(sym: int)
    requires 0 <= sym < 0x100 && (sym == 0x00 || sym == 0xf0 || 1 <= sym % 16 <= 10) && sym != 0xf9 && sym != 0xfa
    ensures 0 <= AcChrPos(sym) < 162 && AcChrVal(AcChrPos(sym)) == sym
  {
    if sym < 0x40 {
      ChrLocated0(sym);
    } else if sym < 0x80 {
      ChrLocated1(sym);
    } else if sym < 0xc0 {
      ChrLocated2(sym);
    } else {
      ChrLocated3(sym);
    }
  }

  lemma ChrMisses(k: int)
    requires 0 <= k < 162
    ensures AcChrVal(k) != 0xf9 && AcChrVal(k) != 0xfa
  {}
}
