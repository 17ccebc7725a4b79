/**
 * Evaluating the little- and big-endian readings of 8-, 16- and 32-byte strings
 * as explicit sums, and the values of the byte strings that occur in the test
 * vectors of `proof/utils.rs` and `proof_generator.rs`.
 */
module VectorBytes {
  import opened Bytes


  /** An 8-byte string read little-endian, byte by byte. */
  lemma LE8(s: seq<U8>)
    requires |s| == 8
    ensures LE(s) == s[0] as int + 256 * (s[1] as int) + 65536 * (s[2] as int) + 16777216 * (s[3] as int) + 4294967296 * (s[4] as int) + 1099511627776 * (s[5] as int) + 281474976710656 * (s[6] as int) + 72057594037927936 * (s[7] as int)
  {
    LESuffixEmpty(s);
    LESuffixStep(s, 7);
    LESuffixStep(s, 6);
    LESuffixStep(s, 5);
    LESuffixStep(s, 4);
    LESuffixStep(s, 3);
    LESuffixStep(s, 2);
    LESuffixStep(s, 1);
    LESuffixStep(s, 0);
    assert s[0..] == s;
  }

  /** An 8-byte string read big-endian, byte by byte. */
  lemma BE8(s: seq<U8>)
    requires |s| == 8
    ensures BE(s) == 72057594037927936 * (s[0] as int) + 281474976710656 * (s[1] as int) + 1099511627776 * (s[2] as int) + 4294967296 * (s[3] as int) + 16777216 * (s[4] as int) + 65536 * (s[5] as int) + 256 * (s[6] as int) + s[7] as int
  {
    BEPrefixStep(s, 8);
    BEPrefixStep(s, 7);
    BEPrefixStep(s, 6);
    BEPrefixStep(s, 5);
    BEPrefixStep(s, 4);
    BEPrefixStep(s, 3);
    BEPrefixStep(s, 2);
    BEPrefixStep(s, 1);
    assert s[..8] == s;
    assert s[..0] == [];
  }

  /** A 16-byte string read little-endian: its two halves joined. */
  lemma LE16(s: seq<U8>)
    requires |s| == 16
    ensures LE(s) == s[0] as int + 256 * (s[1] as int) + 65536 * (s[2] as int) + 16777216 * (s[3] as int) + 4294967296 * (s[4] as int) + 1099511627776 * (s[5] as int) + 281474976710656 * (s[6] as int) + 72057594037927936 * (s[7] as int) + 18446744073709551616 * (s[8] as int) + 4722366482869645213696 * (s[9] as int) + 1208925819614629174706176 * (s[10] as int) + 309485009821345068724781056 * (s[11] as int) + 79228162514264337593543950336 * (s[12] as int) + 20282409603651670423947251286016 * (s[13] as int) + 5192296858534827628530496329220096 * (s[14] as int) + 1329227995784915872903807060280344576 * (s[15] as int)
  {
    LE8(s[..8]);
    LE8(s[8..]);
    LEAppend(s[..8], s[8..]);
    Pow256Eight();
    assert s[..8] + s[8..] == s;
  }

  /** A 16-byte string read big-endian: its two halves joined. */
  lemma BE16(s: seq<U8>)
    requires |s| == 16
    ensures BE(s) == 1329227995784915872903807060280344576 * (s[0] as int) + 5192296858534827628530496329220096 * (s[1] as int) + 20282409603651670423947251286016 * (s[2] as int) + 79228162514264337593543950336 * (s[3] as int) + 309485009821345068724781056 * (s[4] as int) + 1208925819614629174706176 * (s[5] as int) + 4722366482869645213696 * (s[6] as int) + 18446744073709551616 * (s[7] as int) + 72057594037927936 * (s[8] as int) + 281474976710656 * (s[9] as int) + 1099511627776 * (s[10] as int) + 4294967296 * (s[11] as int) + 16777216 * (s[12] as int) + 65536 * (s[13] as int) + 256 * (s[14] as int) + s[15] as int
  {
    BE8(s[..8]);
    BE8(s[8..]);
    BEAppend(s[..8], s[8..]);
    Pow256Eight();
    assert s[..8] + s[8..] == s;
  }

  /** A 32-byte string read little-endian: its two halves joined. */
  lemma LE32(s: seq<U8>)
    requires |s| == 32
    ensures LE(s) == s[0] as int + 256 * (s[1] as int) + 65536 * (s[2] as int) + 16777216 * (s[3] as int) + 4294967296 * (s[4] as int) + 1099511627776 * (s[5] as int) + 281474976710656 * (s[6] as int) + 72057594037927936 * (s[7] as int) + 18446744073709551616 * (s[8] as int) + 4722366482869645213696 * (s[9] as int) + 1208925819614629174706176 * (s[10] as int) + 309485009821345068724781056 * (s[11] as int) + 79228162514264337593543950336 * (s[12] as int) + 20282409603651670423947251286016 * (s[13] as int) + 5192296858534827628530496329220096 * (s[14] as int) + 1329227995784915872903807060280344576 * (s[15] as int) + 340282366920938463463374607431768211456 * (s[16] as int) + 87112285931760246646623899502532662132736 * (s[17] as int) + 22300745198530623141535718272648361505980416 * (s[18] as int) + 5708990770823839524233143877797980545530986496 * (s[19] as int) + 1461501637330902918203684832716283019655932542976 * (s[20] as int) + 374144419156711147060143317175368453031918731001856 * (s[21] as int) + 95780971304118053647396689196894323976171195136475136 * (s[22] as int) + 24519928653854221733733552434404946937899825954937634816 * (s[23] as int) + 6277101735386680763835789423207666416102355444464034512896 * (s[24] as int) + 1606938044258990275541962092341162602522202993782792835301376 * (s[25] as int) + 411376139330301510538742295639337626245683966408394965837152256 * (s[26] as int) + 105312291668557186697918027683670432318895095400549111254310977536 * (s[27] as int) + 26959946667150639794667015087019630673637144422540572481103610249216 * (s[28] as int) + 6901746346790563787434755862277025452451108972170386555162524223799296 * (s[29] as int) + 1766847064778384329583297500742918515827483896875618958121606201292619776 * (s[30] as int) + 452312848583266388373324160190187140051835877600158453279131187530910662656 * (s[31] as int)
  {
    LE16(s[..16]);
    LE16(s[16..]);
    LEAppend(s[..16], s[16..]);
    Pow256Sixteen();
    assert s[..16] + s[16..] == s;
  }

  /** A 32-byte string read big-endian: its two halves joined. */
  lemma BE32(s: seq<U8>)
    requires |s| == 32
    ensures BE(s) == 452312848583266388373324160190187140051835877600158453279131187530910662656 * (s[0] as int) + 1766847064778384329583297500742918515827483896875618958121606201292619776 * (s[1] as int) + 6901746346790563787434755862277025452451108972170386555162524223799296 * (s[2] as int) + 26959946667150639794667015087019630673637144422540572481103610249216 * (s[3] as int) + 105312291668557186697918027683670432318895095400549111254310977536 * (s[4] as int) + 411376139330301510538742295639337626245683966408394965837152256 * (s[5] as int) + 1606938044258990275541962092341162602522202993782792835301376 * (s[6] as int) + 6277101735386680763835789423207666416102355444464034512896 * (s[7] as int) + 24519928653854221733733552434404946937899825954937634816 * (s[8] as int) + 95780971304118053647396689196894323976171195136475136 * (s[9] as int) + 374144419156711147060143317175368453031918731001856 * (s[10] as int) + 1461501637330902918203684832716283019655932542976 * (s[11] as int) + 5708990770823839524233143877797980545530986496 * (s[12] as int) + 22300745198530623141535718272648361505980416 * (s[13] as int) + 87112285931760246646623899502532662132736 * (s[14] as int) + 340282366920938463463374607431768211456 * (s[15] as int) + 1329227995784915872903807060280344576 * (s[16] as int) + 5192296858534827628530496329220096 * (s[17] as int) + 20282409603651670423947251286016 * (s[18] as int) + 79228162514264337593543950336 * (s[19] as int) + 309485009821345068724781056 * (s[20] as int) + 1208925819614629174706176 * (s[21] as int) + 4722366482869645213696 * (s[22] as int) + 18446744073709551616 * (s[23] as int) + 72057594037927936 * (s[24] as int) + 281474976710656 * (s[25] as int) + 1099511627776 * (s[26] as int) + 4294967296 * (s[27] as int) + 16777216 * (s[28] as int) + 65536 * (s[29] as int) + 256 * (s[30] as int) + s[31] as int
  {
    BE16(s[..16]);
    BE16(s[16..]);
    BEAppend(s[..16], s[16..]);
    Pow256Sixteen();
    assert s[..16] + s[16..] == s;
  }

  /** The hash bytes for min_out 0 and the zero salt, read little-endian. */
  lemma ZeroInputHashValue(s: seq<U8>)
    requires |s| == 32
    requires s[0] == 130 && s[1] == 154 && s[2] == 1 && s[3] == 250 && s[4] == 228 && s[5] == 248 && s[6] == 226 && s[7] == 43
    requires s[8] == 27 && s[9] == 76 && s[10] == 165 && s[11] == 173 && s[12] == 91 && s[13] == 84 && s[14] == 165 && s[15] == 131
    requires s[16] == 78 && s[17] == 224 && s[18] == 152 && s[19] == 167 && s[20] == 123 && s[21] == 115 && s[22] == 91 && s[23] == 213
    requires s[24] == 116 && s[25] == 49 && s[26] == 167 && s[27] == 101 && s[28] == 109 && s[29] == 41 && s[30] == 161 && s[31] == 8
    ensures LE(s) == 3903251087035176863716436905953604862679735826551275618631080009348721777282
  {
    LE32(s);
  }

  /** The hash bytes for min_out 1 and the zero salt, read little-endian. */
  lemma MinOutOneHashValue(s: seq<U8>)
    requires |s| == 32
    requires s[0] == 153 && s[1] == 228 && s[2] == 180 && s[3] == 254 && s[4] == 17 && s[5] == 76 && s[6] == 70 && s[7] == 85
    requires s[8] == 144 && s[9] == 220 && s[10] == 166 && s[11] == 91 && s[12] == 235 && s[13] == 153 && s[14] == 101 && s[15] == 2
    requires s[16] == 209 && s[17] == 78 && s[18] == 60 && s[19] == 87 && s[20] == 166 && s[21] == 84 && s[22] == 127 && s[23] == 81
    requires s[24] == 221 && s[25] == 96 && s[26] == 78 && s[27] == 137 && s[28] == 198 && s[29] == 139 && s[30] == 168 && s[31] == 47
    ensures LE(s) == 21556498885567959757859502838713465178879076309391408607210170759797791843481
  {
    LE32(s);
  }

  /** The hash bytes for min_out 0 and the salt [100, 0, ...], read little-endian. */
  lemma SaltHundredHashValue(s: seq<U8>)
    requires |s| == 32
    requires s[0] == 1 && s[1] == 81 && s[2] == 179 && s[3] == 227 && s[4] == 61 && s[5] == 198 && s[6] == 154 && s[7] == 248
    requires s[8] == 208 && s[9] == 143 && s[10] == 160 && s[11] == 176 && s[12] == 87 && s[13] == 254 && s[14] == 14 && s[15] == 196
    requires s[16] == 209 && s[17] == 124 && s[18] == 218 && s[19] == 27 && s[20] == 125 && s[21] == 233 && s[22] == 182 && s[23] == 32
    requires s[24] == 41 && s[25] == 138 && s[26] == 181 && s[27] == 91 && s[28] == 71 && s[29] == 156 && s[30] == 157 && s[31] == 9
    ensures LE(s) == 4349289222664016169421685059227965792448666724714792110008503204762931646721
  {
    LE32(s);
  }

  /** 24 zero bytes followed by [0, 0, 0, 0, 0, 0, 48, 57], read big-endian. */
  lemma Be12345Value(s: seq<U8>)
    requires |s| == 32
    requires s[0] == 0 && s[1] == 0 && s[2] == 0 && s[3] == 0 && s[4] == 0 && s[5] == 0 && s[6] == 0 && s[7] == 0
    requires s[8] == 0 && s[9] == 0 && s[10] == 0 && s[11] == 0 && s[12] == 0 && s[13] == 0 && s[14] == 0 && s[15] == 0
    requires s[16] == 0 && s[17] == 0 && s[18] == 0 && s[19] == 0 && s[20] == 0 && s[21] == 0 && s[22] == 0 && s[23] == 0
    requires s[24] == 0 && s[25] == 0 && s[26] == 0 && s[27] == 0 && s[28] == 0 && s[29] == 0 && s[30] == 48 && s[31] == 57
    ensures BE(s) == 12345
  {
    BE32(s);
  }

  /** proof_a bytes 0-31 (x of -A), read big-endian. */
  lemma ProofAXValue(s: seq<U8>)
    requires |s| == 32
    requires s[0] == 47 && s[1] == 44 && s[2] == 76 && s[3] == 21 && s[4] == 126 && s[5] == 202 && s[6] == 243 && s[7] == 46
    requires s[8] == 235 && s[9] == 135 && s[10] == 162 && s[11] == 57 && s[12] == 164 && s[13] == 197 && s[14] == 50 && s[15] == 168
    requires s[16] == 136 && s[17] == 199 && s[18] == 95 && s[19] == 241 && s[20] == 187 && s[21] == 183 && s[22] == 172 && s[23] == 191
    requires s[24] == 78 && s[25] == 29 && s[26] == 130 && s[27] == 177 && s[28] == 191 && s[29] == 165 && s[30] == 205 && s[31] == 160
    ensures BE(s) == 21336970266497842767908716900339070049495537133979236291184473560261457202592
  {
    BE32(s);
  }

  /** proof_a bytes 32-63 (y of -A), read big-endian. */
  lemma ProofAYValue(s: seq<U8>)
    requires |s| == 32
    requires s[0] == 25 && s[1] == 126 && s[2] == 115 && s[3] == 115 && s[4] == 144 && s[5] == 158 && s[6] == 228 && s[7] == 128
    requires s[8] == 166 && s[9] == 92 && s[10] == 240 && s[11] == 24 && s[12] == 9 && s[13] == 92 && s[14] == 227 && s[15] == 174
    requires s[16] == 4 && s[17] == 13 && s[18] == 224 && s[19] == 148 && s[20] == 145 && s[21] == 54 && s[22] == 29 && s[23] == 196
    requires s[24] == 70 && s[25] == 201 && s[26] == 135 && s[27] == 171 && s[28] == 249 && s[29] == 175 && s[30] == 88 && s[31] == 104
    ensures BE(s) == 11531240761197818391728476411612330701523778175877140820751019989697972623464
  {
    BE32(s);
  }

  /** proof_b bytes 0-31 (x.c1 of B), read big-endian. */
  lemma ProofBX1Value(s: seq<U8>)
    requires |s| == 32
    requires s[0] == 21 && s[1] == 207 && s[2] == 37 && s[3] == 58 && s[4] == 228 && s[5] == 149 && s[6] == 76 && s[7] == 73
    requires s[8] == 42 && s[9] == 190 && s[10] == 131 && s[11] == 167 && s[12] == 8 && s[13] == 96 && s[14] == 65 && s[15] == 141
    requires s[16] == 60 && s[17] == 42 && s[18] == 155 && s[19] == 231 && s[20] == 62 && s[21] == 53 && s[22] == 119 && s[23] == 167
    requires s[24] == 164 && s[25] == 75 && s[26] == 174 && s[27] == 175 && s[28] == 155 && s[29] == 229 && s[30] == 129 && s[31] == 109
    ensures BE(s) == 9864564115022077789419921627032874448498818722354799099437941413808450142573
  {
    BE32(s);
  }

  /** proof_b bytes 32-63 (x.c0 of B), read big-endian. */
  lemma ProofBX0Value(s: seq<U8>)
    requires |s| == 32
    requires s[0] == 22 && s[1] == 45 && s[2] == 176 && s[3] == 229 && s[4] == 160 && s[5] == 239 && s[6] == 161 && s[7] == 172
    requires s[8] == 251 && s[9] == 6 && s[10] == 183 && s[11] == 217 && s[12] == 223 && s[13] == 47 && s[14] == 61 && s[15] == 31
    requires s[16] == 164 && s[17] == 95 && s[18] == 104 && s[19] == 80 && s[20] == 187 && s[21] == 77 && s[22] == 120 && s[23] == 176
    requires s[24] == 210 && s[25] == 23 && s[26] == 149 && s[27] == 124 && s[28] == 72 && s[29] == 120 && s[30] == 122 && s[31] == 141
    ensures BE(s) == 10031611684880255122878343088918815315994982761231989012341296266256938728077
  {
    BE32(s);
  }

  /** proof_b bytes 64-95 (y.c1 of B), read big-endian. */
  lemma ProofBY1Value(s: seq<U8>)
    requires |s| == 32
    requires s[0] == 35 && s[1] == 228 && s[2] == 203 && s[3] == 252 && s[4] == 239 && s[5] == 240 && s[6] == 195 && s[7] == 63
    requires s[8] == 59 && s[9] == 152 && s[10] == 45 && s[11] == 248 && s[12] == 188 && s[13] == 82 && s[14] == 131 && s[15] == 158
    requires s[16] == 199 && s[17] == 96 && s[18] == 154 && s[19] == 166 && s[20] == 161 && s[21] == 115 && s[22] == 166 && s[23] == 70
    requires s[24] == 103 && s[25] == 149 && s[26] == 25 && s[27] == 174 && s[28] == 62 && s[29] == 233 && s[30] == 48 && s[31] == 190
    ensures BE(s) == 16235198704867435558683146462392128588420589574937794617432543654822315372734
  {
    BE32(s);
  }

  /** proof_b bytes 96-127 (y.c0 of B), read big-endian. */
  lemma ProofBY0Value(s: seq<U8>)
    requires |s| == 32
    requires s[0] == 7 && s[1] == 178 && s[2] == 20 && s[3] == 119 && s[4] == 210 && s[5] == 128 && s[6] == 22 && s[7] == 106
    requires s[8] == 28 && s[9] == 244 && s[10] == 39 && s[11] == 249 && s[12] == 64 && s[13] == 232 && s[14] == 192 && s[15] == 108
    requires s[16] == 234 && s[17] == 154 && s[18] == 115 && s[19] == 28 && s[20] == 39 && s[21] == 187 && s[22] == 185 && s[23] == 74
    requires s[24] == 211 && s[25] == 132 && s[26] == 153 && s[27] == 121 && s[28] == 180 && s[29] == 81 && s[30] == 68 && s[31] == 183
    ensures BE(s) == 3480829982942279746431969300864501854801665728182328337962114289772946080951
  {
    BE32(s);
  }

  /** proof_c bytes 0-31 (x of C), read big-endian. */
  lemma ProofCXValue(s: seq<U8>)
    requires |s| == 32
    requires s[0] == 40 && s[1] == 148 && s[2] == 178 && s[3] == 34 && s[4] == 95 && s[5] == 147 && s[6] == 249 && s[7] == 78
    requires s[8] == 211 && s[9] == 28 && s[10] == 202 && s[11] == 71 && s[12] == 162 && s[13] == 82 && s[14] == 131 && s[15] == 150
    requires s[16] == 213 && s[17] == 244 && s[18] == 32 && s[19] == 183 && s[20] == 29 && s[21] == 233 && s[22] == 83 && s[23] == 95
    requires s[24] == 38 && s[25] == 163 && s[26] == 180 && s[27] == 110 && s[28] == 53 && s[29] == 174 && s[30] == 95 && s[31] == 110
    ensures BE(s) == 18355236746471312442545116245056291713255790355048937153933495531313019379566
  {
    BE32(s);
  }

  /** proof_c bytes 32-63 (y of C), read big-endian. */
  lemma ProofCYValue(s: seq<U8>)
    requires |s| == 32
    requires s[0] == 41 && s[1] == 54 && s[2] == 221 && s[3] == 228 && s[4] == 133 && s[5] == 189 && s[6] == 61 && s[7] == 191
    requires s[8] == 111 && s[9] == 39 && s[10] == 198 && s[11] == 81 && s[12] == 208 && s[13] == 14 && s[14] == 69 && s[15] == 84
    requires s[16] == 114 && s[17] == 25 && s[18] == 92 && s[19] == 155 && s[20] == 135 && s[21] == 247 && s[22] == 155 && s[23] == 114
    requires s[24] == 173 && s[25] == 228 && s[26] == 136 && s[27] == 166 && s[28] == 9 && s[29] == 51 && s[30] == 0 && s[31] == 149
    ensures BE(s) == 18641767980306819609170870710163640532602332263544376747995786075293749543061
  {
    BE32(s);
  }
}
