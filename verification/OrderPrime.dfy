/** The order of the generator is prime: a chain of witnesses down to primes tried by division. */
module OrderPrime {
  import opened Primes
  import opened Certificates
  import opened Secp256k1

  /** The primes small enough to be tried by division. */
  lemma SmallPrimes()
    ensures Prime(1871) && Prime(1409) && Prime(41) && Prime(19) && Prime(113)
  {
    hide Prime;
    assert NoDivisor(1871, 42);
    assert NoDivisor(1871, 34);
    assert NoDivisor(1871, 26);
    assert NoDivisor(1871, 18);
    assert NoDivisor(1871, 10);
    TrialDivision(1871);
    assert NoDivisor(1409, 34);
    assert NoDivisor(1409, 26);
    assert NoDivisor(1409, 18);
    assert NoDivisor(1409, 10);
    TrialDivision(1409);
    TrialDivision(41);
    TrialDivision(19);
    assert NoDivisor(113, 10);
    TrialDivision(113);
  }

  lemma Prime1627771()
    ensures Prime(1627771)
  {
    SmallPrimes();
    hide *;
    Witness1627771By1871();
    Pocklington(1627771, 1871);
  }

  lemma Witness1627771By1871()
    requires Prime(1871)
    ensures OneModulo(1627771, 1871)
  {
    hide *;
    var y, n := 910796, 1627771;
    FirstPower(y, n);
    var e, x := 1, y;
    e, x := Climb(y, e, x, n, true, 0x6C123D74B9, 278493);
    e, x := Climb(y, e, x, n, true, 0xA1AA49623, 1128539);
    e, x := Climb(y, e, x, n, false, 782419, 1316472);
    e, x := Climb(y, e, x, n, true, 0xE1C87155D3, 193695);
    e, x := Climb(y, e, x, n, false, 23048, 887017);
    e, x := Climb(y, e, x, n, false, 483359, 1395500);
    e, x := Climb(y, e, x, n, true, 0xFDB4455951, 366293);
    e, x := Climb(y, e, x, n, true, 0x117AB66F33, 1210091);
    e, x := Climb(y, e, x, n, true, 0xBEC46FF069, 510969);
    e, x := Climb(y, e, x, n, true, 0x22039223B1, 1);
    OfPowerOne(n, e, y, x, 589711, 329964);
  }

  lemma Prime297159362677()
    ensures Prime(0x4530140875)
  {
    Prime1627771();
    hide *;
    Witness297159362677By1627771();
    Pocklington(0x4530140875, 1627771);
  }

  lemma Witness297159362677By1627771()
    requires Prime(1627771)
    ensures OneModulo(0x4530140875, 1627771)
  {
    hide *;
    var y, n := 0x1A951D9805, 0x4530140875;
    FirstPower(y, n);
    var e, x := 1, y;
    e, x := Climb(y, e, x, n, true, 0x10F_7DF501652FCC2C48, 0x1A5A190B95);
    e, x := Climb(y, e, x, n, false, 0xA096C8039, 0x18A093C2AC);
    e, x := Climb(y, e, x, n, false, 0x8C419DEE2, 0x3ED1F3646);
    e, x := Climb(y, e, x, n, false, 0x3909DA08, 0x3EE384B57C);
    e, x := Climb(y, e, x, n, true, 0x5EF_89F592B8D24B465A, 0x442AC26D2E);
    e, x := Climb(y, e, x, n, true, 0x6F9_507FAD4B3B70BE0D, 0x1C26AA2163);
    e, x := Climb(y, e, x, n, false, 0xB743CB750, 0x16681C64B9);
    e, x := Climb(y, e, x, n, true, 0xC0_E5237E1BE24A269F, 0xD6126BDCA);
    e, x := Climb(y, e, x, n, false, 0x2965A901E, 0x238A6F15AE);
    e, x := Climb(y, e, x, n, true, 0x1E5_4F63D7737F1CDCC3, 0x187A5B6E35);
    e, x := Climb(y, e, x, n, true, 0xE6_34B21A2C6DC5E64B, 0x1AA1F63296);
    e, x := Climb(y, e, x, n, false, 0xA4075322B, 0x3D3C9AA3D);
    e, x := Climb(y, e, x, n, false, 0x36330BFB, 0x3DF5AEC0D2);
    e, x := Climb(y, e, x, n, true, 0x5C2_F984DE372950E20F, 0x14114AF479);
    e, x := Climb(y, e, x, n, true, 0x9A_B9122C6DC1A6353B, 0x5291C51FE);
    e, x := Climb(y, e, x, n, true, 0xA_3B6A5D62E7E325AB, 0x14317A68ED);
    e, x := Climb(y, e, x, n, true, 0x9C_AAEE4FC1C000D85F, 0x1F839495A2);
    e, x := Climb(y, e, x, n, false, 0xE5AA8C9F9, 0xCF9DDE3B7);
    e, x := Climb(y, e, x, n, true, 0x40_B125DE4845F23F46, 0xCA1B43D17);
    e, x := Climb(y, e, x, n, true, 0x3D_4DBE73551151C484, 1);
    OfPowerOne(n, e, y, x, 0xA48B1BCA0, 0x3F38050A3);
  }

  lemma Prime28181()
    ensures Prime(28181)
  {
    SmallPrimes();
    hide *;
    Witness28181By1409();
    Pocklington(28181, 1409);
  }

  lemma Witness28181By1409()
    requires Prime(1409)
    ensures OneModulo(28181, 1409)
  {
    hide *;
    var y, n := 5879, 28181;
    FirstPower(y, n);
    var e, x := 1, y;
    e, x := Climb(y, e, x, n, false, 1226, 12735);
    e, x := Climb(y, e, x, n, true, 0x2044182, 19149);
    e, x := Climb(y, e, x, n, true, 0x48F3CDD, 20846);
    e, x := Climb(y, e, x, n, false, 15420, 4696);
    e, x := Climb(y, e, x, n, false, 782, 14874);
    e, x := Climb(y, e, x, n, false, 7850, 15026);
    e, x := Climb(y, e, x, n, false, 8011, 22685);
    e, x := Climb(y, e, x, n, false, 18260, 24165);
    e, x := Climb(y, e, x, n, false, 20721, 8724);
    e, x := Climb(y, e, x, n, true, 0xF244F3, 1);
    OfPowerOne(n, e, y, x, 16200, 3379);
  }

  lemma Prime545358713()
    ensures Prime(0x20818379)
  {
    Prime28181();
    hide *;
    Witness545358713By28181();
    Pocklington(0x20818379, 28181);
  }

  lemma Witness545358713By28181()
    requires Prime(28181)
    ensures OneModulo(0x20818379, 28181)
  {
    hide *;
    var y, n := 0x1909C92E, 0x20818379;
    FirstPower(y, n);
    var e, x := 1, y;
    e, x := Climb(y, e, x, n, true, 0x1E2E3DDE1330DDE, 0x1037804A);
    e, x := Climb(y, e, x, n, false, 0x817220E, 0xDABD2C6);
    e, x := Climb(y, e, x, n, true, 0x8FF6C01B346741, 0x1E2787BF);
    e, x := Climb(y, e, x, n, true, 0x2BC651C17796A08, 0x3572A66);
    e, x := Climb(y, e, x, n, true, 0x89866799D49F5, 0x45A4DAB);
    e, x := Climb(y, e, x, n, false, 9778776, 0x81E98A1);
    e, x := Climb(y, e, x, n, false, 0x2073431, 0x1EEDD718);
    e, x := Climb(y, e, x, n, false, 0x1D6DBFB7, 0x9F80FC1);
    e, x := Climb(y, e, x, n, false, 0x30EAC1B, 0xB4C05BE);
    e, x := Climb(y, e, x, n, true, 0x624D70DF75C24C, 0x29328CC);
    e, x := Climb(y, e, x, n, false, 3421830, 0x6AE0B3A);
    e, x := Climb(y, e, x, n, true, 0x225EA4C2010612, 0x53DD3F6);
    e, x := Climb(y, e, x, n, false, 0xD85DFE, 0x13600956);
    e, x := Climb(y, e, x, n, true, 0x12127BB0E14D7EF, 1);
    OfPowerOne(n, e, y, x, 0x995918D, 0x761E708);
  }

  lemma ClimbT(y: int, e: nat, x: int, bit: bool, next: int) returns (f: nat, z: int)
    requires PowerIs(y, e, x, 0x5DDB9F12_EF6348A3E23BA5E3)
    requires (if bit then (x * x) * y else x * x) % 0x5DDB9F12_EF6348A3E23BA5E3 == next
    ensures f == 2 * e + (if bit then 1 else 0) && z == next && PowerIs(y, f, z, 0x5DDB9F12_EF6348A3E23BA5E3)
  {
    var t := if bit then (x * x) * y else x * x;
    hide *;
    f, z := Climb(y, e, x, 0x5DDB9F12_EF6348A3E23BA5E3, bit, t / 0x5DDB9F12_EF6348A3E23BA5E3, next);
  }

  lemma PowersTA0(y: int) returns (e: nat, x: int)
    requires y == 0x33E68E5C_0F4C9F74CF1864BB
    ensures e == 0x4530140875 && x == 1
    ensures PowerIs(y, e, x, 0x5DDB9F12_EF6348A3E23BA5E3)
  {
    hide PowerIs;
    FirstPower(y, 0x5DDB9F12_EF6348A3E23BA5E3);
    e, x := 1, y;
    e, x := ClimbT(y, e, x, false, 0x2D1D71A2_87C764D605197F73);
    e, x := ClimbT(y, e, x, false, 0x474B4A42_BE2922D01DCF05DC);
    e, x := ClimbT(y, e, x, false, 0xE6D0F35_D3ABB4D570437B8D);
    e, x := ClimbT(y, e, x, true, 0xECB2F4D_E023980932152383);
    e, x := ClimbT(y, e, x, false, 0x40BE0A3D_4B0B2598CA52F1CE);
    e, x := ClimbT(y, e, x, true, 0x287636D7_3863FB3F6A6756E9);
    e, x := ClimbT(y, e, x, false, 0x1B53773C_E76100F27FE02330);
    e, x := ClimbT(y, e, x, false, 0x5491DA05_EA87867FAAF2431E);
    e, x := ClimbT(y, e, x, true, 0x50CB75_CD329F47CDCC475F);
    e, x := ClimbT(y, e, x, true, 0x43D08EAD_5342C0F7A07B4D52);
    e, x := ClimbT(y, e, x, false, 0x352E9624_5C9C17D43D878FCE);
    e, x := ClimbT(y, e, x, false, 0x38B2C860_1D8B8E3EAD3B2C05);
    e, x := ClimbT(y, e, x, false, 0x8397A17_4C96AA87DECE6A16);
    e, x := ClimbT(y, e, x, false, 0x4AA0D90F_B42C316D65DE5655);
    e, x := ClimbT(y, e, x, false, 0x37D9EF9C_E7858E4DD029650A);
    e, x := ClimbT(y, e, x, false, 0x17F7BEAB_52A27A1BA4548DE2);
    e, x := ClimbT(y, e, x, false, 0x3A338B08_F3A5E3F59127F79C);
    e, x := ClimbT(y, e, x, true, 0x323D1376_AF0F1F13064EBE50);
    e, x := ClimbT(y, e, x, false, 0x278C33E3_7D505CB1477338E7);
    e, x := ClimbT(y, e, x, true, 0x4EDF6FF0_795F62C3FDDED369);
    e, x := ClimbT(y, e, x, false, 0x424402AA_7C3C7B6A7E2D4919);
    e, x := ClimbT(y, e, x, false, 0x46D33525_F55A2185EDBDF667);
    e, x := ClimbT(y, e, x, false, 0x3ECB212D_FCBB7219B763CEA8);
    e, x := ClimbT(y, e, x, false, 0x8236F81_08E62EE467578611);
    e, x := ClimbT(y, e, x, false, 0x55892D6A_4F2F50E9104A8C7F);
    e, x := ClimbT(y, e, x, false, 0x44DE710A_6D4245E766D547C2);
    e, x := ClimbT(y, e, x, true, 0x21B5098B_575B1660BA11AC53);
    e, x := ClimbT(y, e, x, false, 0x1E2755B7_A5F64483DDFB832D);
    e, x := ClimbT(y, e, x, false, 0x429E0139_947659D9CB85418E);
    e, x := ClimbT(y, e, x, false, 0x10A8C960_96FA17A2526E952B);
    e, x := ClimbT(y, e, x, false, 0x54DD4AAA_3B78B157C632F2EB);
    e, x := ClimbT(y, e, x, true, 0x360FCEA3_FF5B7AF01265C9A0);
    e, x := ClimbT(y, e, x, true, 0x1F145CC9_AF6334D146FF90FE);
    e, x := ClimbT(y, e, x, true, 0x31B5B059_CDEBE88CEC9DEA59);
    e, x := ClimbT(y, e, x, false, 0x2BCA4A08_A8F94656EAE64F1D);
    e, x := ClimbT(y, e, x, true, 0x565A54F5_C02FE16EDE46A152);
    e, x := ClimbT(y, e, x, false, 0x2C0D411D_DA3CB351CE1CCDCB);
    e, x := ClimbT(y, e, x, true, 1);
  }

  lemma PowersTB0(y: int) returns (e: nat, x: int)
    requires y == 0x5010E22_E6820A9A776987FC
    ensures e == 0x20818379 && x == 1
    ensures PowerIs(y, e, x, 0x5DDB9F12_EF6348A3E23BA5E3)
  {
    hide PowerIs;
    FirstPower(y, 0x5DDB9F12_EF6348A3E23BA5E3);
    e, x := 1, y;
    e, x := ClimbT(y, e, x, false, 0xBC7CC67_762F7FAD65B3A8F3);
    e, x := ClimbT(y, e, x, false, 0x55FD5575_02D8FAE0105B29AE);
    e, x := ClimbT(y, e, x, false, 0x79E9CAA_FCB27127ED257504);
    e, x := ClimbT(y, e, x, false, 0x36D445DE_6AB14B820E863593);
    e, x := ClimbT(y, e, x, false, 0x26A9FA42_E9A81635F0B1737E);
    e, x := ClimbT(y, e, x, true, 0x58BA1547_5C487C0889740110);
    e, x := ClimbT(y, e, x, false, 0x5C0D7D94_BAA86963641E6DC2);
    e, x := ClimbT(y, e, x, false, 0x505458E_18ECEA3277EE75FC);
    e, x := ClimbT(y, e, x, false, 0x4D2699D5_54300FEF65FCCD99);
    e, x := ClimbT(y, e, x, false, 0x156E795E_B2026DD4C360A838);
    e, x := ClimbT(y, e, x, false, 0x308CB6A2_E15BF4D603955423);
    e, x := ClimbT(y, e, x, false, 0x51B3353_5BB7CA7FEB76B3BD);
    e, x := ClimbT(y, e, x, true, 0x16D79FD8_FEA619C3227EAA77);
    e, x := ClimbT(y, e, x, true, 0x1D675133_9535722426072D3A);
    e, x := ClimbT(y, e, x, false, 0x25B53B7A_8956DA2A0155DF68);
    e, x := ClimbT(y, e, x, false, 0x1C55776E_B68A12AC3EA3FCBC);
    e, x := ClimbT(y, e, x, false, 0x4B3F7CC7_3EED40375C10FB3E);
    e, x := ClimbT(y, e, x, false, 0x35AA9D7F_00C6DFB96E328894);
    e, x := ClimbT(y, e, x, false, 0x45836A12_410CFA040410F2E8);
    e, x := ClimbT(y, e, x, true, 0x19D335B1_45610C6BD5187FE5);
    e, x := ClimbT(y, e, x, true, 0x49440F5F_06209ABACD123467);
    e, x := ClimbT(y, e, x, false, 0x588885C5_DF7E9533EDC3A66A);
    e, x := ClimbT(y, e, x, true, 0x54F768F_8D78B7D88DEE9DD3);
    e, x := ClimbT(y, e, x, true, 0x37597164_F06908A17EBCD8E1);
    e, x := ClimbT(y, e, x, true, 0x3DB14DCF_8804484A6A31C39D);
    e, x := ClimbT(y, e, x, true, 0x25367461_20F5091350EC93CF);
    e, x := ClimbT(y, e, x, false, 0x550378E2_05D3EDE4E8F28A9D);
    e, x := ClimbT(y, e, x, false, 0x4E1DCD16_45544E758BBAC0D1);
    e, x := ClimbT(y, e, x, true, 1);
  }

  lemma PrimeT()
    ensures Prime(0x5DDB9F12_EF6348A3E23BA5E3)
  {
    Prime297159362677();
    Prime545358713();
    hide *;
    var y := 0x33E68E5C_0F4C9F74CF1864BB;
    var e0, x0 := PowersTA0(y);
    OfPowerOne(0x5DDB9F12_EF6348A3E23BA5E3, e0, y, x0,
               0x19772C44_48EA2E06C03560DD,
               0xE14E85D_1EB8BFD9135DE5FB);
    var y1 := 0x5010E22_E6820A9A776987FC;
    var e1, x1 := PowersTB0(y1);
    OfPowerOne(0x5DDB9F12_EF6348A3E23BA5E3, e1, y1, x1,
               0x1F290AFD_90303F0CE9EFA9EF,
               0x1A94DB4_F354D429A1E4309C);
    NotMultiple(0x4530140875, 0x20818379, 544, 484222805);
    JoinModuli(0x5DDB9F12_EF6348A3E23BA5E3, 0x4530140875, 0x20818379);
    Pocklington(0x5DDB9F12_EF6348A3E23BA5E3,
                0x8_C9034374DCC0DE4D);
  }

  lemma ClimbS(y: int, e: nat, x: int, bit: bool, next: int) returns (f: nat, z: int)
    requires PowerIs(y, e, x, 0x10DBFF26EAB8_198050172EE03275)
    requires (if bit then (x * x) * y else x * x) % 0x10DBFF26EAB8_198050172EE03275 == next
    ensures f == 2 * e + (if bit then 1 else 0) && z == next && PowerIs(y, f, z, 0x10DBFF26EAB8_198050172EE03275)
  {
    var t := if bit then (x * x) * y else x * x;
    hide *;
    f, z := Climb(y, e, x, 0x10DBFF26EAB8_198050172EE03275, bit, t / 0x10DBFF26EAB8_198050172EE03275, next);
  }

  lemma PowersS0(y: int) returns (e: nat, x: int)
    requires y == 0xE62D151A1DE_8C23E34C03A81887
    ensures e == 0x1776E7C4BBD && x == 0xC28A920822_45AB2A9333C1617E
    ensures PowerIs(y, e, x, 0x10DBFF26EAB8_198050172EE03275)
  {
    hide PowerIs;
    FirstPower(y, 0x10DBFF26EAB8_198050172EE03275);
    e, x := 1, y;
    e, x := ClimbS(y, e, x, false, 0xC7DFD485A51_8FA187EB6039217B);
    e, x := ClimbS(y, e, x, true, 0xAC25B5B2591_B377698A687165BA);
    e, x := ClimbS(y, e, x, true, 0x85ADE7A4115_45E2F010763AA27B);
    e, x := ClimbS(y, e, x, true, 0xA92D9A4A71E_A4BA33BF800EC2A4);
    e, x := ClimbS(y, e, x, false, 0xDC3662278BE_B7CB3725C18889F2);
    e, x := ClimbS(y, e, x, true, 0xDD5C8556A99_0FEC7A5316A4CC9C);
    e, x := ClimbS(y, e, x, true, 0x279519BC955_807B2978C8881CD6);
    e, x := ClimbS(y, e, x, true, 0x9A2CA38C92C_D3242B991AA17ED6);
    e, x := ClimbS(y, e, x, false, 0xCCC8828C0_5D48B20B54B98042);
    e, x := ClimbS(y, e, x, true, 0xD2A29964005_C465BB42AC94E9F5);
    e, x := ClimbS(y, e, x, true, 0x79D49797661_585DDBAA265EB076);
    e, x := ClimbS(y, e, x, false, 0x7ED3D378FAE_620CD95F639AAA86);
    e, x := ClimbS(y, e, x, true, 0x9D3E0147E3B_0155EA3E55763399);
    e, x := ClimbS(y, e, x, true, 0x7638C7DB7FF_9A42A7D8067E77EF);
    e, x := ClimbS(y, e, x, true, 0xFDE3D07611B_5C9FDFA0E1BC6199);
    e, x := ClimbS(y, e, x, false, 0xEAE82FAB3B9_F8AC1E964BDD6D41);
    e, x := ClimbS(y, e, x, false, 0x8893C2AE63F_86A82DFEF4397B28);
    e, x := ClimbS(y, e, x, true, 0x7D67F7CA3B5_268397FDD52E93A3);
    e, x := ClimbS(y, e, x, true, 0x3AA24335D40_D5D2B12DEAC7397F);
    e, x := ClimbS(y, e, x, true, 0xEFCD1A224DA_D0AA0226C1E2B56A);
    e, x := ClimbS(y, e, x, true, 0x2EFD3A5C795_C6B739399B55AC6D);
    e, x := ClimbS(y, e, x, true, 0xFD0A2211215_85F3246BB2A79168);
    e, x := ClimbS(y, e, x, false, 0x10FFEF5475_B772313FEA149123);
    e, x := ClimbS(y, e, x, false, 0x2D08A81B612_D8E3C26CC8ADBE87);
    e, x := ClimbS(y, e, x, false, 0xA4E03059D00_77C56943DEB6941B);
    e, x := ClimbS(y, e, x, true, 0x738B358B2F2_CDC497F892366759);
    e, x := ClimbS(y, e, x, false, 0xBA327A8E756_9574CF9C4FB957AC);
    e, x := ClimbS(y, e, x, false, 0x5F6142D55BE_C77C842A03984D54);
    e, x := ClimbS(y, e, x, true, 0xA231349BA5B_84F5237E6C6DFDD8);
    e, x := ClimbS(y, e, x, false, 0xD34505AF9FB_F14DD62F935A71E7);
    e, x := ClimbS(y, e, x, true, 0xB8C906C6320_86BADD6014C227DC);
    e, x := ClimbS(y, e, x, true, 0x5995AF30362_A1EE60837588C614);
    e, x := ClimbS(y, e, x, true, 0x53173C40846_C54FC92B98BADB1E);
    e, x := ClimbS(y, e, x, false, 0x6F961216F94_1EF675F5BC558652);
    e, x := ClimbS(y, e, x, true, 0xB222CADBF9F_0DBAEDB3BE8175C9);
    e, x := ClimbS(y, e, x, true, 0x10275909FBF4_2A7869A7FEDF3572);
    e, x := ClimbS(y, e, x, true, 0x9D7CA8ABD23_7B944F51BADFFE25);
    e, x := ClimbS(y, e, x, true, 0x9798ED866BB_B42B0BFA1B2CB4F6);
    e, x := ClimbS(y, e, x, false, 0xB05620A3188_5EA4877B28C2D7B2);
    e, x := ClimbS(y, e, x, true, 0xC28A920822_45AB2A9333C1617E);
  }

  lemma PowersS1(y: int) returns (e: nat, x: int)
    requires y == 0xE62D151A1DE_8C23E34C03A81887
    ensures e == 0x1776E_7C4BBD8D228F88EE && x == 0x10A42F5C3D98_5FA906E55F78C7CD
    ensures PowerIs(y, e, x, 0x10DBFF26EAB8_198050172EE03275)
  {
    hide PowerIs;
    e, x := PowersS0(y);
    e, x := ClimbS(y, e, x, true, 0x14E5861195A_C99BBA501D0EAB9D);
    e, x := ClimbS(y, e, x, false, 0xEFBC108641C_489CBCCA66448F24);
    e, x := ClimbS(y, e, x, false, 0x9B64913919_83078444CA09AD0D);
    e, x := ClimbS(y, e, x, false, 0xF4AB8A899CF_8E70B8CF096048FD);
    e, x := ClimbS(y, e, x, true, 0xB2C8267280A_336E8E46A3CA8608);
    e, x := ClimbS(y, e, x, true, 0x87CDBF41F30_7BD8B9A531051E5A);
    e, x := ClimbS(y, e, x, false, 0xE10EA47452F_BE70E8D6C6AC951C);
    e, x := ClimbS(y, e, x, true, 0x94BD4E7EC84_CE8514C4A1CB8E51);
    e, x := ClimbS(y, e, x, false, 0x5400F7DAE5C_1E7D3233F62EBD03);
    e, x := ClimbS(y, e, x, false, 0x78D8395D2EB_AD29CE0F22A560E0);
    e, x := ClimbS(y, e, x, true, 0x9261CB25289_721A12543634A3E8);
    e, x := ClimbS(y, e, x, false, 0xD60CA4C8DC6_C37031A0E888A9E2);
    e, x := ClimbS(y, e, x, false, 0x1D87576314A_1A46BD94271840F1);
    e, x := ClimbS(y, e, x, false, 0xE9667F8D39A_F9913BE6832003E0);
    e, x := ClimbS(y, e, x, true, 0x5BBB06950C1_B944B01835A42749);
    e, x := ClimbS(y, e, x, false, 0xBF9491AD28B_1499F8F3AE3618EC);
    e, x := ClimbS(y, e, x, true, 0x34D084715D6_769C84FCBC6A1E2B);
    e, x := ClimbS(y, e, x, false, 0x94C45A48C91_27515F67EFC68215);
    e, x := ClimbS(y, e, x, false, 0xD7D550E3DE8_44CAB2CBEE1C6A7E);
    e, x := ClimbS(y, e, x, false, 0x10224B478694_74E997A6FF9FA000);
    e, x := ClimbS(y, e, x, true, 0xAAC354044D7_7C36589CB739A01A);
    e, x := ClimbS(y, e, x, true, 0xB6D7675B526_6DEE83386E2F978B);
    e, x := ClimbS(y, e, x, true, 0x5C203B13772_82B737877DE994DE);
    e, x := ClimbS(y, e, x, true, 0xC10AFE51AF2_38E6E531F210A9EE);
    e, x := ClimbS(y, e, x, true, 0x249EB53B8B0_CFADA9CDA6389BD4);
    e, x := ClimbS(y, e, x, false, 0x292BA8BD4A1_12BF5EF74B4B5550);
    e, x := ClimbS(y, e, x, false, 0x68A4B83B9C5_5C8F3DCDFEE3D56A);
    e, x := ClimbS(y, e, x, false, 0x6428EED3A0B_5EFFE86A3DD1FA85);
    e, x := ClimbS(y, e, x, true, 0xDF0B4019E84_F9FB76E2DDE8DF56);
    e, x := ClimbS(y, e, x, false, 0xDCAC335ADDD_BA1038F8C552C676);
    e, x := ClimbS(y, e, x, false, 0xDC59350982C_6B52416901FD9E01);
    e, x := ClimbS(y, e, x, false, 0xC23BD477A29_9DD74FB725032BC6);
    e, x := ClimbS(y, e, x, true, 0x6102226DEE2_29D5616C30475489);
    e, x := ClimbS(y, e, x, true, 0x336B0093F1E_BC15879A4229CD06);
    e, x := ClimbS(y, e, x, true, 0xE2896EA61EA_F52A574084DC142A);
    e, x := ClimbS(y, e, x, false, 0xAA98578FE36_1781EB9FA28FFF5D);
    e, x := ClimbS(y, e, x, true, 0x85644767BA6_0CAEFACAAB6DD0DA);
    e, x := ClimbS(y, e, x, true, 0x10A1CB1D1965_B1426BDD0191FE6F);
    e, x := ClimbS(y, e, x, true, 0x91FBE8EC45C_ACD68DE7C6CF895F);
    e, x := ClimbS(y, e, x, false, 0x10A42F5C3D98_5FA906E55F78C7CD);
  }

  lemma PowersS2(y: int) returns (e: nat, x: int)
    requires y == 0xE62D151A1DE_8C23E34C03A81887
    ensures e == 0x5DDB9F12_EF6348A3E23BA5E3 && x == 1
    ensures PowerIs(y, e, x, 0x10DBFF26EAB8_198050172EE03275)
  {
    hide PowerIs;
    e, x := PowersS1(y);
    e, x := ClimbS(y, e, x, true, 0xFD9A868D218_727F56FA8AFBE530);
    e, x := ClimbS(y, e, x, false, 0x27CA5BD5147_AA954B35BEE208B8);
    e, x := ClimbS(y, e, x, false, 0x102222D5AD77_BACEFE1F00BAADB6);
    e, x := ClimbS(y, e, x, true, 0xE58EF3FD67E_6FE641B5FD7A79CF);
    e, x := ClimbS(y, e, x, false, 0x106B4E18BBD4_C722C3DE897F33F5);
    e, x := ClimbS(y, e, x, true, 0x56F5650ACA6_5B98A936EBA97248);
    e, x := ClimbS(y, e, x, true, 0x7A45EEFD2DB_ED6167ED85156240);
    e, x := ClimbS(y, e, x, true, 0xEA1EE2ADCC2_34352A8E9A9A24EA);
    e, x := ClimbS(y, e, x, true, 0x2C0199CC3E2_E0571F154F61A688);
    e, x := ClimbS(y, e, x, false, 0x4FCC9C6C288_26D0BFBE987CE9AA);
    e, x := ClimbS(y, e, x, false, 0x31157D731DA_FE93A5C6F477CA6C);
    e, x := ClimbS(y, e, x, false, 0xA9BF4695140_258AF96AEB217099);
    e, x := ClimbS(y, e, x, true, 0xF8BE8A87B3B_5923CFB6438B391D);
    e, x := ClimbS(y, e, x, true, 1);
  }

  lemma PrimeS()
    ensures Prime(0x10DBFF26EAB8_198050172EE03275)
  {
    PrimeT();
    hide *;
    var y := 0xE62D151A1DE_8C23E34C03A81887;
    var e0, x0 := PowersS2(y);
    OfPowerOne(0x10DBFF26EAB8_198050172EE03275, e0, y, x0,
               0xB628645E03E_3BC891EEB6C2AC0A,
               0x9B6F2DD0EB9_5E1C8A4B38881AEF);
    Pocklington(0x10DBFF26EAB8_198050172EE03275,
                0x5DDB9F12_EF6348A3E23BA5E3);
  }

  lemma Prime9349()
    ensures Prime(9349)
  {
    SmallPrimes();
    hide *;
    Witness9349By41();
    Witness9349By19();
    NotMultiple(41, 19, 2, 3);
    JoinModuli(9349, 41, 19);
    Pocklington(9349, 779);
  }

  lemma Witness9349By41()
    requires Prime(41)
    ensures OneModulo(9349, 41)
  {
    hide *;
    var y, n := 1995, 9349;
    FirstPower(y, n);
    var e, x := 1, y;
    e, x := Climb(y, e, x, n, false, 425, 6700);
    e, x := Climb(y, e, x, n, true, 9579158, 1858);
    e, x := Climb(y, e, x, n, false, 369, 2383);
    e, x := Climb(y, e, x, n, false, 607, 3846);
    e, x := Climb(y, e, x, n, true, 3156431, 1);
    OfPowerOne(n, e, y, x, 7422, 1583);
  }

  lemma Witness9349By19()
    requires Prime(19)
    ensures OneModulo(9349, 19)
  {
    hide *;
    var y, n := 4423, 9349;
    FirstPower(y, n);
    var e, x := 1, y;
    e, x := Climb(y, e, x, n, false, 2092, 4821);
    e, x := Climb(y, e, x, n, false, 2486, 427);
    e, x := Climb(y, e, x, n, true, 86259, 5776);
    e, x := Climb(y, e, x, n, true, 0xF0D6B3, 1);
    OfPowerOne(n, e, y, x, 1444, 683);
  }

  lemma Prime44706919()
    ensures Prime(0x2AA2C67)
  {
    Prime9349();
    hide *;
    Witness44706919By9349();
    Pocklington(0x2AA2C67, 9349);
  }

  lemma Witness44706919By9349()
    requires Prime(9349)
    ensures OneModulo(0x2AA2C67, 9349)
  {
    hide *;
    var y, n := 0x17A51A5, 0x2AA2C67;
    FirstPower(y, n);
    var e, x := 1, y;
    e, x := Climb(y, e, x, n, false, 0xD1CEC2, 8801355);
    e, x := Climb(y, e, x, n, false, 1732703, 0x23713C0);
    e, x := Climb(y, e, x, n, true, 0x2B8A3806D41CF, 4014519);
    e, x := Climb(y, e, x, n, false, 360489, 0x9CD452);
    e, x := Climb(y, e, x, n, false, 2362870, 0x1C4044A);
    e, x := Climb(y, e, x, n, true, 0x1BA9F108863C9, 0x2A74B95);
    e, x := Climb(y, e, x, n, false, 0x2A46DDE, 0x2404867);
    e, x := Climb(y, e, x, n, false, 0x1E6D440, 0x11FB3B1);
    e, x := Climb(y, e, x, n, false, 7951895, 1796384);
    e, x := Climb(y, e, x, n, false, 72181, 5355117);
    e, x := Climb(y, e, x, n, true, 0xE76E4F466D3, 0x1EDEBC8);
    e, x := Climb(y, e, x, n, false, 0x1659E62, 0x1493AD2);
    e, x := Climb(y, e, x, n, true, 0xEAD0096F39B5, 1);
    OfPowerOne(n, e, y, x, 0x22308DE, 0x12F5FB1);
  }

  lemma Prime120233()
    ensures Prime(120233)
  {
    SmallPrimes();
    hide *;
    Witness120233By113();
    Witness120233By19();
    NotMultiple(113, 19, 5, 18);
    JoinModuli(120233, 113, 19);
    Pocklington(120233, 2147);
  }

  lemma Witness120233By113()
    requires Prime(113)
    ensures OneModulo(120233, 113)
  {
    hide *;
    var y, n := 32912, 120233;
    FirstPower(y, n);
    var e, x := 1, y;
    e, x := Climb(y, e, x, n, true, 0x11AC61A3, 97381);
    e, x := Climb(y, e, x, n, true, 0x9AB97A64, 92684);
    e, x := Climb(y, e, x, n, false, 71447, 36705);
    e, x := Climb(y, e, x, n, false, 11205, 46260);
    e, x := Climb(y, e, x, n, false, 17798, 80666);
    e, x := Climb(y, e, x, n, true, 0x6A2AE3A7, 1);
    OfPowerOne(n, e, y, x, 118505, 32438);
  }

  lemma Witness120233By19()
    requires Prime(19)
    ensures OneModulo(120233, 19)
  {
    hide *;
    var y, n := 76217, 120233;
    FirstPower(y, n);
    var e, x := 1, y;
    e, x := Climb(y, e, x, n, false, 48314, 93927);
    e, x := Climb(y, e, x, n, false, 73376, 64721);
    e, x := Climb(y, e, x, n, true, 0x9E452142, 61639);
    e, x := Climb(y, e, x, n, true, 0x8F8E2CA8, 1);
    OfPowerOne(n, e, y, x, 83923, 53199);
  }

  lemma PrimeU()
    ensures Prime(0x9_78C6F353C3889A79)
  {
    Prime44706919();
    Prime120233();
    hide *;
    WitnessUBy44706919();
    WitnessUBy120233();
    NotMultiple(0x2AA2C67, 120233, 371, 100476);
    JoinModuli(0x9_78C6F353C3889A79, 0x2AA2C67, 120233);
    Pocklington(0x9_78C6F353C3889A79, 0x4E385B002FF);
  }

  lemma WitnessUBy44706919()
    requires Prime(0x2AA2C67)
    ensures OneModulo(0x9_78C6F353C3889A79, 0x2AA2C67)
  {
    hide *;
    var y, n := 0x3_C02F880550DC7BC9, 0x9_78C6F353C3889A79;
    FirstPower(y, n);
    var e, x := 1, y;
    e, x := Climb(y, e, x, n, false, 0x1_7C39236B9F759B13, 0x8_6980D98EA45B09D6);
    e, x := Climb(y, e, x, n, true, 0x1C_058E6DB239C429C2_EFAF3E64EFE41956, 0x5_4367543F0823B75E);
    e, x := Climb(y, e, x, n, false, 0x2_ECBA27FC93E9DCEE, 0x3_4F4F16A8462AEE06);
    e, x := Climb(y, e, x, n, true, 0x4_568585F82458EF90_34DDEC790E4D36B9, 0x4_F3837E2B6B65A8D3);
    e, x := Climb(y, e, x, n, false, 0x2_969294337EE64D3D, 0x9_4AB8BEBE031A6A14);
    e, x := Climb(y, e, x, n, true, 0x22_3078906FC9F8CB52_12561EC6B871F27A, 0xE2E825C84BD7A66);
    e, x := Climb(y, e, x, n, false, 0x153BCC1FA322B0, 0x4_C17E141D90A81B74);
    e, x := Climb(y, e, x, n, true, 0x8_F4DA17E74DF77E8D_87F0296933F82B4D, 0x5_84841B72F168E3AB);
    e, x := Climb(y, e, x, n, false, 0x3_36D6D2A9A1B6BE8B, 0x4_72400C2E42910686);
    e, x := Climb(y, e, x, n, false, 0x2_16529CC8C0448743, 0x7_542457F87D9C5179);
    e, x := Climb(y, e, x, n, false, 0x5_ABA4630408C1F8F4, 0x4_99E92A7C9E5457DD);
    e, x := Climb(y, e, x, n, true, 0x8_6230B9B88E14287E_1DDF33148D5FAFED, 0x4_D8AA8FE369090BCC);
    e, x := Climb(y, e, x, n, false, 0x2_7ACD3F1868AFDFEA, 0x3_16077267B2BF90F6);
    e, x := Climb(y, e, x, n, true, 0x3_C573165BFBA71B10_7CD54063F07E9C73, 0x8_D525DDC6416F4629);
    e, x := Climb(y, e, x, n, true, 0x1E_E4A1CD5D61E8B3F1_768EB3970B641507, 0x2_945B9DB4355D788A);
    e, x := Climb(y, e, x, n, false, 0xB3D71A786AC7838D, 0x1_F703780A29ADAABF);
    e, x := Climb(y, e, x, n, false, 0x68594C33210864B7, 0x2_D8AC69E1D6428A02);
    e, x := Climb(y, e, x, n, false, 0xDAF98B87DD0FC3EF, 0x2_4ACA073BAF24C60D);
    e, x := Climb(y, e, x, n, true, 0x2_149B9F9E14CEF28B_529C7CB3B333A48A, 0x9_47683027A543EA77);
    e, x := Climb(y, e, x, n, true, 0x22_181868CDF7D115BB_A79361A8EC3F9EC0, 0x4_B24886A953FABCD9);
    e, x := Climb(y, e, x, n, false, 0x2_542191CC15E34455, 0x3_1568CB92FD7501C4);
    e, x := Climb(y, e, x, n, false, 0x1_00FFEFE555C8D747, 0x3_6D9D3DD53504A781);
    e, x := Climb(y, e, x, n, true, 0x4_A761944CBFF1458B_4340A353A5B77CB4, 0x8_B8DE6E302E0C89B5);
    e, x := Climb(y, e, x, n, true, 0x1E_200CE95BCAF3A282_06FC05AE1487F88F, 0x4_A4BBDDD70DE4A5EA);
    e, x := Climb(y, e, x, n, true, 0x8_89CFB7A40CEA30E8_8F0A2362A55D4F5B, 1);
    OfPowerOne(n, e, y, x, 0x5_49464BF5EEEE8EEA, 0x2_17E1D6C99705D787);
  }

  lemma WitnessUBy120233()
    requires Prime(120233)
    ensures OneModulo(0x9_78C6F353C3889A79, 120233)
  {
    hide *;
    var y, n := 0x5_4D08D619496F1EE4, 0x9_78C6F353C3889A79;
    FirstPower(y, n);
    var e, x := 1, y;
    e, x := Climb(y, e, x, n, true, 0xF_B9E16CCC36919C72_16741828E482F073, 0x1_7A2DEC498BF7A5E5);
    e, x := Climb(y, e, x, n, true, 0x1_38A96AD1607108C4_8ED161497EAF0E24, 0x1_1588671774501040);
    e, x := Climb(y, e, x, n, false, 0x1FC3FD7705757353, 0x8_B6112293700C9FC5);
    e, x := Climb(y, e, x, n, true, 0x2A_7822EEF8FAF3BC02_235349FBDCC01CDD, 0x8_EC405612801973CF);
    e, x := Climb(y, e, x, n, false, 0x8_67DE9966775FD7CD, 0xB2A8B371F2CB4F7C);
    e, x := Climb(y, e, x, n, true, 0x45C797AE6BBF05FE_AB8067E64CBEEF1C, 0x2_A2819674EB56A204);
    e, x := Climb(y, e, x, n, false, 0xBBA108F8DD759574, 0x7_B7A1F3A06F1DA43C);
    e, x := Climb(y, e, x, n, true, 0x21_54CC58D8965BE912_16201BD8450E3DF1, 0x4_21F6024D7EF3A557);
    e, x := Climb(y, e, x, n, true, 0x9_8EE98840746F7AC0_B95FDFA630464D52, 0x9_3CE6D555FE244B62);
    e, x := Climb(y, e, x, n, false, 0x9_02813754EB0063AC, 0x2_44B038697B3DFD38);
    e, x := Climb(y, e, x, n, true, 0x2_E12A83E7A33E101A_839C9984CAC90EA5, 0x1_DDE210AA64B3FB03);
    e, x := Climb(y, e, x, n, false, 0x5E2EC9EE26E3AB8F, 0x6_FD54B4ABEC88C572);
    e, x := Climb(y, e, x, n, true, 0x1B_5764BFB9D046C7AC_CB869601CC3CD84F, 0x6_0A487BD3BDE1BB39);
    e, x := Climb(y, e, x, n, false, 0x3_DA1106F047D8F59C, 0x4_E32E84BC04F263F5);
    e, x := Climb(y, e, x, n, false, 0x2_859BA9FFCC0898A1, 0x2_DDE575CD75D26A60);
    e, x := Climb(y, e, x, n, true, 0x4_997766F90DED5986_2C425D05248BE037, 1);
    OfPowerOne(n, e, y, x, 0xC63AD50804F2104E, 0x6EF0A1B884084831);
  }

  lemma ClimbN(y: int, e: nat, x: int, bit: bool, next: int) returns (f: nat, z: int)
    requires PowerIs(y, e, x, 0xFFFFFFFFFFFFFFFF_FFFFFFFFFFFFFFFE_BAAEDCE6AF48A03B_BFD25E8CD0364141)
    requires (if bit then (x * x) * y else x * x) % 0xFFFFFFFFFFFFFFFF_FFFFFFFFFFFFFFFE_BAAEDCE6AF48A03B_BFD25E8CD0364141 == next
    ensures f == 2 * e + (if bit then 1 else 0) && z == next && PowerIs(y, f, z, 0xFFFFFFFFFFFFFFFF_FFFFFFFFFFFFFFFE_BAAEDCE6AF48A03B_BFD25E8CD0364141)
  {
    var t := if bit then (x * x) * y else x * x;
    hide *;
    f, z := Climb(y, e, x, 0xFFFFFFFFFFFFFFFF_FFFFFFFFFFFFFFFE_BAAEDCE6AF48A03B_BFD25E8CD0364141, bit, t / 0xFFFFFFFFFFFFFFFF_FFFFFFFFFFFFFFFE_BAAEDCE6AF48A03B_BFD25E8CD0364141, next);
  }

  lemma PowersNA0(y: int) returns (e: nat, x: int)
    requires y == 0xBF8EF18068F2B95B_4EC1D89E969AAAF8_0D6A55B047C0187E_BEBFA98B6A4E7DE2
    ensures e == 0x10DBFF26EAB && x == 0x635794953D5C6FBB_29B3F9D1810A64C7_DF77B21C5DF719A8_3580DE017934E43F
    ensures PowerIs(y, e, x, 0xFFFFFFFFFFFFFFFF_FFFFFFFFFFFFFFFE_BAAEDCE6AF48A03B_BFD25E8CD0364141)
  {
    hide PowerIs;
    FirstPower(y, 0xFFFFFFFFFFFFFFFF_FFFFFFFFFFFFFFFE_BAAEDCE6AF48A03B_BFD25E8CD0364141);
    e, x := 1, y;
    e, x := ClimbN(y, e, x, false, 0xF6406626A7AAA0DA_613CEAC2C0B47229_FBC1B3DE31F52ECB_7D4A7AC89E505685);
    e, x := ClimbN(y, e, x, false, 0x5F5BE6A4C6EDA305_3F086C765C0BFE6D_44D8841319FEED0D_C6F29E079AEFC79D);
    e, x := ClimbN(y, e, x, false, 0xED99786735F5EA13_D958DF6F69B30478_F2E965B4865D8A50_85D3EE57D5712505);
    e, x := ClimbN(y, e, x, false, 0x7D5CCEAD2A66F32E_351DA78AFCC0CB55_C2E2B5583B8B7BC4_D4E7B4293745BA6D);
    e, x := ClimbN(y, e, x, true, 0x2CFF5FB19CED861C_B38BFD7D98860606_FEAF349048896306_C222B2727AC0C4A7);
    e, x := ClimbN(y, e, x, true, 0x5F2E8E6FBD6DA80A_AD6CC82C2F0487B6_1E6011E67BA2B345_D818DB0FA8C63664);
    e, x := ClimbN(y, e, x, false, 0xDFD18F673BD09889_38F7CA7FC4345D50_BE17D07EABBA2DCB_5C3445C29BB77A90);
    e, x := ClimbN(y, e, x, true, 0x84C94DC28FD457E8_F9B7F21CE3A64C53_172C221A98D3A9E9_15CCF307BDAABCD5);
    e, x := ClimbN(y, e, x, true, 0x6FD68DCC47774D5_CFB6ABF657E90D9A_74851B70BA8EF052_18FE28F221FE3349);
    e, x := ClimbN(y, e, x, false, 0x4FB799A8E6E2E2EC_47AC374FC98E4CFC_80F140962D48D4D1_0D03D364DCA9CB57);
    e, x := ClimbN(y, e, x, true, 0x77D190BFF0D1ACCA_0E9C41B4962C1564_D658A9D1B37E4F0C_23E827FAB5AEBAF9);
    e, x := ClimbN(y, e, x, true, 0xEFCF44D64DD40556_304F5BD2BFDD167B_370A205DDD2C2634_587CC7BEF39CEC03);
    e, x := ClimbN(y, e, x, true, 0x82B6F559A221BBF6_78C51D83732A9955_9902EA153ACE6B53_40C0D50EBF04AFC1);
    e, x := ClimbN(y, e, x, true, 0x27439970F4DFA2ED_56A81BAA0DA403A9_E31490BBF70A05DE_CECABFB233544D29);
    e, x := ClimbN(y, e, x, true, 0x6AEFA62F581F9764_86AC6D574DC760EB_A635A3B88E0B175C_57713B4D1EEB9D89);
    e, x := ClimbN(y, e, x, true, 0x5A57AEFB46B15992_2118970F4086A2E7_716723538DDE55A7_545E692EAAEB09C7);
    e, x := ClimbN(y, e, x, true, 0x3FC41D418A5D0F54_A236D1F26A1C6BCE_6FA6D7700812F32D_F0E515AC1E534C32);
    e, x := ClimbN(y, e, x, true, 0x4B8E0FC7D7FE8062_116FA36260F673D6_5C9925C7EB8170B8_AAE79266A910BA21);
    e, x := ClimbN(y, e, x, true, 0xDF3BEFCDD64D30A1_D97D203665E11475_274CA095F43260BE_11E93F5E4425397F);
    e, x := ClimbN(y, e, x, true, 0xB2CCF905F4BF474E_2C310D4E8E52FE9C_FB1D4E26932FB9E8_4361EEE515AB50D7);
    e, x := ClimbN(y, e, x, false, 0xE1DF80B780E377F4_51174A4B976B8E8A_6F1C77F86A05CF41_57EBFEF0F66F46FE);
    e, x := ClimbN(y, e, x, false, 0x177576E99B26E876_100A02F781A8FD31_6037EA9BFB41FE0B_156BD2D7FE7996D1);
    e, x := ClimbN(y, e, x, true, 0x55052C099DC131DF_012B8501270BC9D5_2ABA153A1B74E6F9_D8FF2473514EC74B);
    e, x := ClimbN(y, e, x, false, 0x2BA7E1D5770D0D60_430AA0AE1A32E04A_EF62802B2B29C751_54598C5003D5A937);
    e, x := ClimbN(y, e, x, false, 0x523B298842121E84_E77D5CFA92D5E8D9_B0B277476BD5FCF3_F33AA30E96B292C5);
    e, x := ClimbN(y, e, x, true, 0xA3DECB801757507B_DD15ED955CAFFCEE_60CD24BBC83D7AA8_A4443147D18B86A7);
    e, x := ClimbN(y, e, x, true, 0x4CD82072BFE21CC8_C774ECDCB9ADBE5C_AC6C47E0D06876D3_D070AD27576D9FAA);
    e, x := ClimbN(y, e, x, false, 0x743999DA34915CB6_DF7E3D608916D213_E8EA0A3B1E7BE595_C8E727A2D25C4E3C);
    e, x := ClimbN(y, e, x, true, 0x70A1B77459F4F29C_E17B766A5B241C21_DB20B79F76F25A0D_8EDF8251691A129E);
    e, x := ClimbN(y, e, x, true, 0x487DD0DE7B1E03B_25704C5630ED78BC_156ABBEBD0E77CFC_F7E7546BFF37636E);
    e, x := ClimbN(y, e, x, true, 0x88CE690E4AB678A6_B48F62CC91F979A0_7095CD93BA9F7964_8FBE6E41A0D327EE);
    e, x := ClimbN(y, e, x, false, 0x3BD4DC0B00966CDA_73ED072615AFF02B_5FC0E6D77772DF29_46586F64598AE418);
    e, x := ClimbN(y, e, x, true, 0xAE3229A57EB9A1F1_EA48B5585AAA39A5_451BB910AC91E40C_BCE980B99C30FDF4);
    e, x := ClimbN(y, e, x, false, 0xBBC95CB4948E03A6_DF34D2C01D03667A_769AB4472CDAEDBF_250F6949FCEA2C51);
    e, x := ClimbN(y, e, x, true, 0x483949691F908081_C1D3658FA0CBA77C_1AB1B1AD956DC8CC_7C91310B0806CD4B);
    e, x := ClimbN(y, e, x, false, 0xA37350EC8D3A2CD9_862DC9FF4C222E0A_7FF3F8BE3982FF6B_635540E82F0C0E06);
    e, x := ClimbN(y, e, x, true, 0x7440C676B46E8EDA_54151C8C18BD26A9_1586D0B4AA25429A_116034C123B60CC9);
    e, x := ClimbN(y, e, x, false, 0xDB8A4D062EBB3B0E_F6F0086565299D1F_C8BC7EE0DC5ABD8A_7BC466BA14927DA7);
    e, x := ClimbN(y, e, x, true, 0x3045ED7086691CBD_22DC005D465CA530_6FD2CD08616C774B_61436CC364647D34);
    e, x := ClimbN(y, e, x, true, 0x635794953D5C6FBB_29B3F9D1810A64C7_DF77B21C5DF719A8_3580DE017934E43F);
  }

  lemma PowersNA1(y: int) returns (e: nat, x: int)
    requires y == 0xBF8EF18068F2B95B_4EC1D89E969AAAF8_0D6A55B047C0187E_BEBFA98B6A4E7DE2
    ensures e == 0x10DBF_F26EAB8198050172 && x == 0xEC8275D3693DCF79_5D2CED4B0AA14040_D4F7A8AFDCFCB443_147006DD8C4E0BF4
    ensures PowerIs(y, e, x, 0xFFFFFFFFFFFFFFFF_FFFFFFFFFFFFFFFE_BAAEDCE6AF48A03B_BFD25E8CD0364141)
  {
    hide PowerIs;
    e, x := PowersNA0(y);
    e, x := ClimbN(y, e, x, true, 0xE1CEF14B11793858_49BC49310EAF1D0F_BCD50CC596FADFBD_C4D34A9EEE9FDCC9);
    e, x := ClimbN(y, e, x, false, 0x986F0C3D8969031E_ADD7513629BE9BA4_077DBFCE9C6B799A_29F32B5301D84B12);
    e, x := ClimbN(y, e, x, false, 0x90AC5849921E0E9E_BA3FFFF5A374696D_005302712DCCEF5C_8E331DE598F250EE);
    e, x := ClimbN(y, e, x, false, 0x1664EA7B139EDACD_FF76ED064F1BE2F4_E5046E971FB0C3CA_56FF64904825B3F2);
    e, x := ClimbN(y, e, x, false, 0xB5169B27674355CB_B06B4DB88455242F_0684871F59025140_A6E0D2A035E9AEB1);
    e, x := ClimbN(y, e, x, false, 0xB11CF5EC40A06E8C_1398D978895EC5EB_7AE48A1BA7D6E395_27D6DCA6794B5CA5);
    e, x := ClimbN(y, e, x, false, 0xD2C26E396902114F_B09DA26AEBE977A3_AF2D316FB2656FFC_E7C951B8C65CE194);
    e, x := ClimbN(y, e, x, true, 0xC962F74100598178_2BEFCCCE0F3A5861_838B5FC1FE45C7F2_203E9E7685FDF5D4);
    e, x := ClimbN(y, e, x, true, 0x9DDBEA86F39FBA4A_05D039FC253E0405_EE400954CCF75CC0_EF308A7751B5146D);
    e, x := ClimbN(y, e, x, false, 0x3B4676CAAE08D834_40313267FEBC9D4D_4E5A3E937C6B5A3C_BE4A7992338B2430);
    e, x := ClimbN(y, e, x, false, 0xA03523A33A036EE9_9FA19FFD513BC0AF_C22E1BEC29919C35_73B421C00DECAA67);
    e, x := ClimbN(y, e, x, true, 0x3CA53C62F47D302F_6A12DCEABD673358_8A36DD77A5DC451A_B2AD3D359B57A4E3);
    e, x := ClimbN(y, e, x, true, 0x6C4FB8F874BAA4FF_53267BE0E4D74D96_5261D1B1122C953D_5EF4EAB1025A5E72);
    e, x := ClimbN(y, e, x, false, 0x484D6E42C654C8EE_90B40394E87CCFD5_4E6004D0F4A901E0_1D32C735187BD53C);
    e, x := ClimbN(y, e, x, false, 0xC6B8B48A8759F59F_CC5B0E1DF7C389B6_67D5C4BFBFCE76FA_D1230C5AEC5D5364);
    e, x := ClimbN(y, e, x, false, 0xC5D2BF4E644D4E9_83AA042C09DE2E6A_EB47F3CA8CAF172C_72BAC3C3DDF4E8E8);
    e, x := ClimbN(y, e, x, false, 0x320045DFF473FA02_6432FC797D9D3869_0B6CDFB6907A8CEE_9963B5ADB21F5C4E);
    e, x := ClimbN(y, e, x, false, 0xCDC7219DAE4318BB_8E3DF20F73F526A4_DE9BD6AAB58940E5_2B2C72086082C1EB);
    e, x := ClimbN(y, e, x, false, 0xC41D28DF3860AD90_F73F2D983D3A6C9C_2E4A161D79474402_E606D95DC6E5A451);
    e, x := ClimbN(y, e, x, false, 0x4492195A879DCBB9_60998FA0E83258B3_BBC3DF6860B9E705_3D4F1BA9E150B243);
    e, x := ClimbN(y, e, x, false, 0xAD51E258EC0946F9_ECA4D09B670E45AF_36B9266D86EC6FCB_8CDBF41DE5F396D5);
    e, x := ClimbN(y, e, x, true, 0xFCE4906DA4BFAB80_50970225F40409C4_FB57576642C05B74_232C4E46414BB682);
    e, x := ClimbN(y, e, x, false, 0x5561C2A334C45AE2_D0D098AB5310041C_0ADEC785860688C0_D22B48187F7E26A8);
    e, x := ClimbN(y, e, x, true, 0xE930F9ED3D35B59F_9A1405513AB97C15_9489218F4CD45809_6D185140AFE2345C);
    e, x := ClimbN(y, e, x, false, 0x6DAF718DA1F1387E_671ED8715695C113_CCEC2C79824EB670_23440B91F70A8A74);
    e, x := ClimbN(y, e, x, false, 0xD9C03121CE759A5D_ADF28FAA695AF483_BAD9AEA18AB6226A_D58F8F3B33A7798E);
    e, x := ClimbN(y, e, x, false, 0x9F4198404524ADEA_A2A438437DFAF88D_16B787309832CA1D_65A7AB172BB01379);
    e, x := ClimbN(y, e, x, false, 0x6E5D585E0BF3932_B26CEEC453A12AC0_5A610EB374BF77B5_B71966A3B3ADCFAB);
    e, x := ClimbN(y, e, x, false, 0x9AB1718A501DB979_5208261A2395DA91_0A8E066F2580639A_7CE6465EC4619540);
    e, x := ClimbN(y, e, x, false, 0x710B2940A35EF0BC_46C714A0A4BA7A9F_9E5B25BC2B725E45_9AC8B7ABEEF6B6A6);
    e, x := ClimbN(y, e, x, false, 0x9D12350619840171_B8506F9BC5BADE7E_125E1AC885FD5475_EDCFDC7A13D5F177);
    e, x := ClimbN(y, e, x, true, 0xDF0AEA03711FB46C_5937D5BD5A9642C7_9D57293AD85BA0C2_FD320FE535A8F72F);
    e, x := ClimbN(y, e, x, false, 0x3A5E6536F708E73A_8E20FB40B5220555_CBCA1366332C083D_4F1B2708F3BAC9CD);
    e, x := ClimbN(y, e, x, true, 0x14A2D63300013EC0_7B762F906E7369DE_7A619473CDCB55FE_0D248EEEFE4D9353);
    e, x := ClimbN(y, e, x, true, 0xA712D99E6BACF12A_08060D94D930CBB6_52800BD45FDABAA2_4C622412172E6D6E);
    e, x := ClimbN(y, e, x, true, 0x4D86D62A6C1E38F8_224047ADD714BEEB_F916892A04CBA9D5_4116C184F5CC77B7);
    e, x := ClimbN(y, e, x, false, 0x4D909C49131B1A6B_EA28B7E4C59C809B_81281A6D1DA087C0_8E992A03B6ACC92B);
    e, x := ClimbN(y, e, x, false, 0xDB6F4EE61786961E_F2478EAF14327437_E86D8D0DEB271546_563714C95F5027C6);
    e, x := ClimbN(y, e, x, true, 0x9BC6A7F8280D33A3_A0C1F305FD4770A9_7A1CDCFF6B81B502_7D7EDD6E549A642A);
    e, x := ClimbN(y, e, x, false, 0xEC8275D3693DCF79_5D2CED4B0AA14040_D4F7A8AFDCFCB443_147006DD8C4E0BF4);
  }

  lemma PowersNA2(y: int) returns (e: nat, x: int)
    requires y == 0xBF8EF18068F2B95B_4EC1D89E969AAAF8_0D6A55B047C0187E_BEBFA98B6A4E7DE2
    ensures e == 0x10DBFF26EAB8_198050172EE03275 && x == 1
    ensures PowerIs(y, e, x, 0xFFFFFFFFFFFFFFFF_FFFFFFFFFFFFFFFE_BAAEDCE6AF48A03B_BFD25E8CD0364141)
  {
    hide PowerIs;
    e, x := PowersNA1(y);
    e, x := ClimbN(y, e, x, true, 0x63D8B0E11204ADFE_165D2FAA4B2E351C_DF40767A6144D4F5_576E7E2EDE170173);
    e, x := ClimbN(y, e, x, true, 0x7B5CC9A959B624B9_691E91DD7059D2F4_56BF49FD618A64E0_5CC04514B4D4CEC8);
    e, x := ClimbN(y, e, x, true, 0x9FA09C0545000B39_D53B3E27E441AB05_1711C09F81CAFA61_BDC4C9ADBCB928C2);
    e, x := ClimbN(y, e, x, false, 0xDD3CDF500C1AA8BE_3FF0A334C47A31D6_20E309FA0C1F172A_AF77EAE880C8228C);
    e, x := ClimbN(y, e, x, true, 0xCE1FEF3215E39AF2_A625D60BDDFBFFCB_C0CCAB0E30247FBE_35F13DC5719DB875);
    e, x := ClimbN(y, e, x, true, 0xF32644FE7D61875F_57FAD7FF3DA3FB8F_D2578BA017AF4526_DF61A29928950B91);
    e, x := ClimbN(y, e, x, true, 0x69773F1EED3F1F17_1461FB2834A62AF3_0D1A750C9FD3F443_90239DCB690DD751);
    e, x := ClimbN(y, e, x, false, 0x2EA604D9B2C8A283_E867736248023E4F_1B49BEA506F9ED93_B3C3ED753DD5F16B);
    e, x := ClimbN(y, e, x, false, 0xB458F8FE926C8A8A_D20A126B89FE8094_93446ABD33467FED_C0381926F9E52A95);
    e, x := ClimbN(y, e, x, false, 0x9C79A6C7ED57499_F74F1B1F4F050107_DC5346512314103D_9D1941420693CAAF);
    e, x := ClimbN(y, e, x, false, 0x56F1F9251E375135_E6931C5F5ECEE588_8582EE7EC1CE22C3_F9A6EF98C46BB16B);
    e, x := ClimbN(y, e, x, false, 0x4EDEAE43E1CD99A2_4833C59243A39A44_E1D53DC7F5009BD3_3BDBE2130C7E2C3A);
    e, x := ClimbN(y, e, x, false, 0xF38AC8BF4D2D3B1D_87BC873DC3BD6BF9_18285B3CE2D52418_4A6CECA9FCD917AD);
    e, x := ClimbN(y, e, x, false, 0xEB3E6F964BCA35F9_02F290719AFCAD12_038F5EDE5F4465FD_15089CAE75DB21BC);
    e, x := ClimbN(y, e, x, true, 0xFC2CB3CB566CA450_8EB7A156E2F4C77A_6CEAD1100B3DFDF0_3FCBB9BD6D66137E);
    e, x := ClimbN(y, e, x, true, 0xCCCE520302ED062_BD78942C2BAC975D_D1F642AF8720B751_838CDB76C7B16E9B);
    e, x := ClimbN(y, e, x, false, 0x7C20B13C2E069BC9_C960C3C4D85ACFCB_127E524D718F51BA_5C3E26C199692F6E);
    e, x := ClimbN(y, e, x, false, 0xDD68937AF036476E_C720507FC726CEF9_6769C1546A01FED2_B684048BE05E6E7B);
    e, x := ClimbN(y, e, x, true, 0x152B6D9827608470_B2FD927AD93EB600_D8AA21EC51BFA4E5_158D0DB116B580EE);
    e, x := ClimbN(y, e, x, false, 0x3A10959834BF1A3B_A4A164E1C8C29483_CC1A2C0D3B171A14_76ED369B0FE82DDE);
    e, x := ClimbN(y, e, x, false, 0xDFD82EC0ABB81C59_13D038DFD6D6E465_997D6071338DD55E_202DBF9C18F81BAD);
    e, x := ClimbN(y, e, x, true, 0x2B667E2ED23103E8_F51CBCB39C02A509_B605B05CEE5292AB_DBD00D2B6A67439A);
    e, x := ClimbN(y, e, x, true, 0xF92DBB6CD253C956_9EDBEE8D660C9ACD_2BAC352C78A9D325_CCD2BE49FF88D56B);
    e, x := ClimbN(y, e, x, true, 0xBC9B30A75B346EFD_1F90ABE1A0E7AADA_689E283B5A6039D8_3D71D2DBBF200952);
    e, x := ClimbN(y, e, x, false, 0xEA89CCB6EF1D21EB_B8731267C2269B8A_DD08075D0A90E876_A514108799F5B14B);
    e, x := ClimbN(y, e, x, true, 0x753918516A5A1D09_83AF1DB27DFC2706_60DC3D21B73CC42B_8D3239BBAFA4E801);
    e, x := ClimbN(y, e, x, false, 0xC1910A297684907C_66FA01D02C959756_09657B9EE728D58B_E2FBE16725288C77);
    e, x := ClimbN(y, e, x, true, 1);
  }

  lemma PowersNB0(y: int) returns (e: nat, x: int)
    requires y == 0x80894521654E00CB_538D9BBDA87CA192_4C43E68444848439_D39A6B50ED475170
    ensures e == 0x12F18DE6A78 && x == 0x7199D5774A764C7E_DF08E1E67F62CA3F_A2504EE6BC8F6A86_DDF0FFD4C3DE39D1
    ensures PowerIs(y, e, x, 0xFFFFFFFFFFFFFFFF_FFFFFFFFFFFFFFFE_BAAEDCE6AF48A03B_BFD25E8CD0364141)
  {
    hide PowerIs;
    FirstPower(y, 0xFFFFFFFFFFFFFFFF_FFFFFFFFFFFFFFFE_BAAEDCE6AF48A03B_BFD25E8CD0364141);
    e, x := 1, y;
    e, x := ClimbN(y, e, x, false, 0x51E1D3BD6C6FCD39_86AA6DD0D88EF8E8_A00B10816BBDDBBD_0041FEB4A28C8AD9);
    e, x := ClimbN(y, e, x, false, 0x62D5ADF1391176F9_2967602D2E81A6BF_B202338C0440C361_1BA60BE6AEE7C827);
    e, x := ClimbN(y, e, x, true, 0x7810C254393DC61E_2F967D3EEA1BD397_4A65C6B86A3B6E52_62158B2601A38961);
    e, x := ClimbN(y, e, x, false, 0x7A512A0BA328A9DD_74D2F621F29B1883_9C32B4464C3A42A4_7B75DCE2937812CC);
    e, x := ClimbN(y, e, x, true, 0x4B5195775EBDAFA_00DAA43D684B9CA7_05A86C2DEBC688FD_C762B6B6A864227B);
    e, x := ClimbN(y, e, x, true, 0x3E8170C44AFFC870_22043FB94090A36B_AA50B860B26540D2_921D7630B5AD729E);
    e, x := ClimbN(y, e, x, true, 0x1BB0C26F2ACDD5AD_CE7D2E1623D59ACB_8D2BBDC89A65BBAD_43E7694377CE7D84);
    e, x := ClimbN(y, e, x, true, 0xAA5164A80E428AAD_E2F2367AB796D097_8220550F2A233D39_B6E79B9D221E8625);
    e, x := ClimbN(y, e, x, false, 0x392166A510438384_637197DFA76FCEB9_58A900CAECC095B4_F42486F43E344EB7);
    e, x := ClimbN(y, e, x, false, 0x9932E20F46BCDD68_ED5A95BF80DD0B83_DF1E0613FC86552B_6E3F4F076521389D);
    e, x := ClimbN(y, e, x, false, 0xF193ABD5F679934A_DA919AA8C990464C_30F1AFB139EE30D6_D412D015B2C3A71B);
    e, x := ClimbN(y, e, x, true, 0x22D358F290A71C90_8A4BA757557D2522_C439D945A9E9D3AB_FB96BB73871B7158);
    e, x := ClimbN(y, e, x, true, 0xF2FFDA96A56DEA86_45DD8249DBA7A806_5DBF5D16B246D655_E52BBE93F466AA0E);
    e, x := ClimbN(y, e, x, false, 0xD1AE63F288216479_67D0A7F2965A32BE_382F1B74C937A2DC_8AC7ECE5B2F1D654);
    e, x := ClimbN(y, e, x, false, 0xAE5D30D4799F1DF9_38185B16F555E160_97E46E79933548CA_869B78FBCB5EDD91);
    e, x := ClimbN(y, e, x, false, 0x27C5F9F05D31185D_323FB578CCD6F7AA_EBC85F9BA7219D8C_D9497D3660718282);
    e, x := ClimbN(y, e, x, true, 0xCDD8C31B8FE4CF7B_AB6CB52C91AA622D_0EB7CADE130A495F_15740A171EF91D58);
    e, x := ClimbN(y, e, x, true, 0xB322268769978909_274F56118802D898_97C4209ED1129D0C_1DBAFF18832616CA);
    e, x := ClimbN(y, e, x, false, 0x5A7D2F1550B235B7_092674A6BA106DE3_84887235FD7D3900_6C80BC32BCE1FD42);
    e, x := ClimbN(y, e, x, true, 0x3EC6736F8E17D2D2_90EDE99FDBFF6384_6F6B8BF81D0B0750_558CA42509045C20);
    e, x := ClimbN(y, e, x, true, 0x81655BA0B1C6F072_F7A3C15F736E942C_5622FA3B85E177F1_D257CCD808F02A48);
    e, x := ClimbN(y, e, x, true, 0xC4CF74D52E2EE26F_F31C0DC7CB2E1403_870070213F50895C_A48CF8D737307E55);
    e, x := ClimbN(y, e, x, true, 0x3D6B06DD14B00F20_4D1CAC328BD7F35F_880DE6340ACED911_306F91DEC4F28C9B);
    e, x := ClimbN(y, e, x, false, 0xC7A5B084BDE1B62B_15E26F28DC20CC18_106600F3530DCB39_FF1BF3E4DBFD611A);
    e, x := ClimbN(y, e, x, false, 0xB6F51F8189DA0DE0_3BB26AF4CC26B90B_B3AE829DFEAC0BE4_5B7E71C351079B33);
    e, x := ClimbN(y, e, x, true, 0x46D3597E8572E7A7_7517A022502C1D36_F4C61CBEA9147F93_14E67422F73C2570);
    e, x := ClimbN(y, e, x, true, 0xFA07B598554EEBF7_C0FC647EBE34C335_D2976AF38061D1A7_8BB0F7113A55B21F);
    e, x := ClimbN(y, e, x, false, 0x7896CE51D00B1EB1_675B3056EC92D661_AF52B4CC4159B4CE_176462200FE6B415);
    e, x := ClimbN(y, e, x, true, 0x3A41245D883ECF95_0B9F3625472C8361_AB5F85699E69287E_B0B6D6D8A6D34E46);
    e, x := ClimbN(y, e, x, false, 0xB8EE975988A1DA56_36F062F2B09EFA93_1CA966DC7B5E2284_270DF59F1962055D);
    e, x := ClimbN(y, e, x, true, 0x46082A673DB275E3_67C302341C5E0321_F9B250F58661B83A_DD1D554CD3DA0D1C);
    e, x := ClimbN(y, e, x, false, 0x1D6FEB6D6268F964_B7A50B15E8C27DDD_897735EDEFB54A8D_504D6E32BA419EC0);
    e, x := ClimbN(y, e, x, false, 0x8298A9A8FCCC81EA_D1CB49677E131720_D8D9EC93E85DD884_7F4CDF4DF20EB289);
    e, x := ClimbN(y, e, x, true, 0xBD76F315E8889E42_77CA702DF4BE29B7_750F29AFB00D5D42_2B40767E2923D46E);
    e, x := ClimbN(y, e, x, true, 0x6B2F91CCD77FF1E4_DBCA61B885407E74_CE993B7DB7019E2B_1CA3246D16583D14);
    e, x := ClimbN(y, e, x, true, 0x3F3BD2228DFFCB41_D61490311C6B5EDD_146751887A4787C1_AFBF7273C1B84FEC);
    e, x := ClimbN(y, e, x, true, 0xC2A8F44480D65F09_C4D0D8DF404D5CD7_2D5524F6A47DD096_DA86262634D84CCD);
    e, x := ClimbN(y, e, x, false, 0x82C0A86BF58E1AD2_25F8099B42FA3951_4DCDADE60B68033B_A2A2141098D366F5);
    e, x := ClimbN(y, e, x, false, 0x967C0E50CC52B304_F2CFB5C06E0CBD0D_4371105DED44155D_D1F42EFB9DCB6A9F);
    e, x := ClimbN(y, e, x, false, 0x7199D5774A764C7E_DF08E1E67F62CA3F_A2504EE6BC8F6A86_DDF0FFD4C3DE39D1);
  }

  lemma PowersNB1(y: int) returns (e: nat, x: int)
    requires y == 0x80894521654E00CB_538D9BBDA87CA192_4C43E68444848439_D39A6B50ED475170
    ensures e == 0x9_78C6F353C3889A79 && x == 1
    ensures PowerIs(y, e, x, 0xFFFFFFFFFFFFFFFF_FFFFFFFFFFFFFFFE_BAAEDCE6AF48A03B_BFD25E8CD0364141)
  {
    hide PowerIs;
    e, x := PowersNB0(y);
    e, x := ClimbN(y, e, x, false, 0xFA6AF2E0096DC8B6_D242DEEDB509579F_FC74298E48066AF7_B2EB33D313E1A026);
    e, x := ClimbN(y, e, x, true, 0xE673D04A870AD099_50D893C58C6EDA73_F68C6A6A5EC9646B_0324659F4736288F);
    e, x := ClimbN(y, e, x, true, 0x3C99EACD817FBC4B_896072DD67E80081_3AD8E6DC5C02CB92_AE5BB087EC9D0596);
    e, x := ClimbN(y, e, x, true, 0xD01E888AB546FB46_331DBF1780E0D838_1BFD8BD5D9F91B5C_F13ABA4B48C35F22);
    e, x := ClimbN(y, e, x, false, 0x36C0D964FD32E497_293F065622D57C3A_B027179B8A367D35_2C06FB858FDB9152);
    e, x := ClimbN(y, e, x, false, 0xD149CA873E37079F_FC9C3243E24EA994_3A83B916CE5F8D76_980F436CF327F190);
    e, x := ClimbN(y, e, x, false, 0xBEB3E7B31F8FDDA9_E95AD598575DCAF7_F68340B962C2867C_792C157080715342);
    e, x := ClimbN(y, e, x, true, 0x8439F97F35DC76D1_2BF8E35DDA23BC75_4E64A52989650F70_3A14D02419D34815);
    e, x := ClimbN(y, e, x, false, 0x402A060A6C78B387_A1484D7398ECB4DA_E53DE08F115E42ED_E5EBB26DF0E8901E);
    e, x := ClimbN(y, e, x, false, 0xD4F10D9B89E85569_AB89141D02BC762E_2625FAAD836271E0_B9633AEA98B87E7A);
    e, x := ClimbN(y, e, x, false, 0x97FEB943FB894BA7_635388DD166D0C9B_C5111D5876D58AE8_3782E5A72D123B0C);
    e, x := ClimbN(y, e, x, true, 0xE58423CE85E74B60_6C1C09EE6B3C2E9D_4FCFB766099B70B8_D1AB482961D25522);
    e, x := ClimbN(y, e, x, false, 0x67AD793A14781A41_9EB228E206DF9B25_0947C4425606DE24_814BA842B8F9990F);
    e, x := ClimbN(y, e, x, false, 0x2A9795CE88A12C72_E669484BCF2A0DE2_D500698DEB2EFEFD_21991271AB2B1D58);
    e, x := ClimbN(y, e, x, true, 0x4C5B4FAF155184C2_668A908C194399AB_114725D8C26194B0_481987B2352FC2C4);
    e, x := ClimbN(y, e, x, true, 0xF70D3B065253C2D2_B12A3EB6A4CC7BFC_88CBA5E75E69DEB5_0968038C134C9047);
    e, x := ClimbN(y, e, x, false, 0x269FFEEE51F2AD8D_584EFE02C278C42C_7970C0F139A0FEE1_B4E4FFB649585B1C);
    e, x := ClimbN(y, e, x, true, 0xC4C335165AEBDCB0_8A2D0794C3B22734_9B783D1E69829426_0339DA8292DBDFB9);
    e, x := ClimbN(y, e, x, false, 0xFF72F2A76F92BD4F_BC2F9D98C6D40927_4326B179C6EFF6E1_18882090A3085246);
    e, x := ClimbN(y, e, x, false, 0x4781E9F1C7201D31_3CE7EAD3B24F6873_19AFE7D7B39D755E_38320E5319CC2B28);
    e, x := ClimbN(y, e, x, true, 0x560586C60F54387D_C7E2FE665B309C0E_ABDD3F29E98CF39E_F0FD459E1CB3B1A7);
    e, x := ClimbN(y, e, x, true, 0x5257E5C8C26F07EC_A603AA0586F946D8_7C729B8EFECC3DD8_F5BEB4915310968D);
    e, x := ClimbN(y, e, x, true, 0x65618C73A87D7FDE_4F8A4DE122662BD0_80C47D1D8C20A8D0_36C78631C842C027);
    e, x := ClimbN(y, e, x, true, 0x71952AA2112C493_C1779E74B1611456_43859C98A25F1C43_A7FAAD1BF7971135);
    e, x := ClimbN(y, e, x, false, 0x2D39E26603F1A7B1_4736411DB74CB793_138EC45F27B9F919_F3D9D87CE61117D4);
    e, x := ClimbN(y, e, x, false, 0x141A88B52CCBA96D_1A95B18972FC8934_1685C9E7216B6482_38C2CAE541A93744);
    e, x := ClimbN(y, e, x, true, 1);
  }

  /** The order n of the generator is prime. */
  lemma OrderIsPrime()
    ensures Prime(N)
  {
    PrimeS();
    PrimeU();
    assert N == 0xFFFFFFFFFFFFFFFF_FFFFFFFFFFFFFFFE_BAAEDCE6AF48A03B_BFD25E8CD0364141;
    hide *;
    var y := 0xBF8EF18068F2B95B_4EC1D89E969AAAF8_0D6A55B047C0187E_BEBFA98B6A4E7DE2;
    var e0, x0 := PowersNA2(y);
    OfPowerOne(0xFFFFFFFFFFFFFFFF_FFFFFFFFFFFFFFFE_BAAEDCE6AF48A03B_BFD25E8CD0364141, e0, y, x0,
               0x7E44A52D4B46B005_CA417D91243E8664_5B66FFFD04CCE225_37827794F1DCF541,
               0x5E7BB86E5FDF5478_542D5D10C793B095_2AF41B8A9BAF728D_11EC83BB8B3E6320);
    var y1 := 0x80894521654E00CB_538D9BBDA87CA192_4C43E68444848439_D39A6B50ED475170;
    var e1, x1 := PowersNB1(y1);
    OfPowerOne(0xFFFFFFFFFFFFFFFF_FFFFFFFFFFFFFFFE_BAAEDCE6AF48A03B_BFD25E8CD0364141, e1, y1, x1,
               0xB71D6F711F135BED_1FEA75409CAA7F11_CEAAE5F4618A3E28_E0A0711F1F2D3D66,
               0x5BF0E7EC055E92C9_00F661E11B085CD2_95DAFAFCDDB58559_D48DAB7C4F572DF9);
    NotMultiple(0x10DBFF26EAB8_198050172EE03275, 0x9_78C6F353C3889A79, 1957082341645, 52357523193857589584);
    JoinModuli(0xFFFFFFFFFFFFFFFF_FFFFFFFFFFFFFFFE_BAAEDCE6AF48A03B_BFD25E8CD0364141, 0x10DBFF26EAB8_198050172EE03275, 0x9_78C6F353C3889A79);
    Pocklington(0xFFFFFFFFFFFFFFFF_FFFFFFFFFFFFFFFE_BAAEDCE6AF48A03B_BFD25E8CD0364141,
                0x9FB032262DFE_F8AC0A6E763B11B5_53ECE5A0F37A3B4D);
  }
}
