/** The field prime of section 2.7.1 of SEC 2 is prime: a chain of witnesses down to primes tried by division. */
module FieldPrime {
  import opened Primes
  import opened Certificates
  import opened Secp256k1

  /** The primes small enough to be tried by division. */
  lemma SmallPrimes()
    ensures Prime(53) && Prime(29) && Prime(7) && Prime(419) && Prime(239) && Prime(101)
  {
    hide Prime;
    TrialDivision(53);
    TrialDivision(29);
    TrialDivision(7);
    assert NoDivisor(419, 18);
    assert NoDivisor(419, 10);
    TrialDivision(419);
    assert NoDivisor(239, 10);
    TrialDivision(239);
    assert NoDivisor(101, 10);
    TrialDivision(101);
  }

  lemma Prime107590001()
    ensures Prime(0x669B171)
  {
    SmallPrimes();
    hide *;
    Witness107590001By53();
    Witness107590001By29();
    NotMultiple(53, 29, 1, 24);
    JoinModuli(0x669B171, 53, 29);
    Witness107590001By7();
    NotMultiple(1537, 7, 219, 4);
    JoinModuli(0x669B171, 1537, 7);
    Pocklington(0x669B171, 10759);
  }

  lemma Witness107590001By53()
    requires Prime(53)
    ensures OneModulo(0x669B171, 53)
  {
    hide *;
    var y, n := 0x19A6723, 0x669B171;
    FirstPower(y, n);
    var e, x := 1, y;
    e, x := Climb(y, e, x, n, true, 0xA479897E4E0A, 0x30EE811);
    e, x := Climb(y, e, x, n, false, 0x1755C2B, 0x1106726);
    e, x := Climb(y, e, x, n, true, 0x4875EA792896, 0x24A5D36);
    e, x := Climb(y, e, x, n, false, 0xD16E8F, 0x9E9B45);
    e, x := Climb(y, e, x, n, true, 0x1890B1CB2D8A, 1);
    OfPowerOne(n, e, y, x, 0x48349CB, 0x120CEC5);
  }

  lemma Witness107590001By29()
    requires Prime(29)
    ensures OneModulo(0x669B171, 29)
  {
    hide *;
    var y, n := 0x4113566, 0x669B171;
    FirstPower(y, n);
    var e, x := 1, y;
    e, x := Climb(y, e, x, n, true, 0xA7DD8D880B8DA, 0x291BB1E);
    e, x := Climb(y, e, x, n, true, 0x42FC593E14E86, 0x283E372);
    e, x := Climb(y, e, x, n, false, 0xFC8A1C, 5049448);
    e, x := Climb(y, e, x, n, true, 0xEB5135E3DEF, 1);
    OfPowerOne(n, e, y, x, 0x5F72DE4, 0x3C894A3);
  }

  lemma Witness107590001By7()
    requires Prime(7)
    ensures OneModulo(0x669B171, 7)
  {
    hide *;
    var y, n := 0x5B4BA30, 0x669B171;
    FirstPower(y, n);
    var e, x := 1, y;
    e, x := Climb(y, e, x, n, true, 0x1CF81934DC639C, 0x2BCDC24);
    e, x := Climb(y, e, x, n, true, 0x6AB428C3D536F, 1);
    OfPowerOne(n, e, y, x, 4923006, 4380337);
  }

  lemma Prime20113()
    ensures Prime(20113)
  {
    SmallPrimes();
    hide *;
    Witness20113By419();
    Pocklington(20113, 419);
  }

  lemma Witness20113By419()
    requires Prime(419)
    ensures OneModulo(20113, 419)
  {
    hide *;
    var y, n := 15069, 20113;
    FirstPower(y, n);
    var e, x := 1, y;
    e, x := Climb(y, e, x, n, true, 0xA23F37E, 807);
    e, x := Climb(y, e, x, n, false, 32, 7633);
    e, x := Climb(y, e, x, n, true, 0x29A1140, 13245);
    e, x := Climb(y, e, x, n, false, 8722, 4439);
    e, x := Climb(y, e, x, n, false, 979, 14094);
    e, x := Climb(y, e, x, n, false, 9876, 4848);
    e, x := Climb(y, e, x, n, true, 0x10CB0DB, 5877);
    e, x := Climb(y, e, x, n, true, 0x18ADB34, 1);
    OfPowerOne(n, e, y, x, 17111, 12819);
  }

  lemma Prime1206781()
    ensures Prime(1206781)
  {
    Prime20113();
    hide *;
    Witness1206781By20113();
    Pocklington(1206781, 20113);
  }

  lemma Witness1206781By20113()
    requires Prime(20113)
    ensures OneModulo(1206781, 20113)
  {
    hide *;
    var y, n := 78448, 1206781;
    FirstPower(y, n);
    var e, x := 1, y;
    e, x := Climb(y, e, x, n, false, 5099, 712385);
    e, x := Climb(y, e, x, n, false, 420533, 1153952);
    e, x := Climb(y, e, x, n, true, 0x1427843872, 1127766);
    e, x := Climb(y, e, x, n, true, 0x1340025B7F, 518205);
    e, x := Climb(y, e, x, n, true, 0x4107CB4C8, 1076296);
    e, x := Climb(y, e, x, n, false, 959919, 1068877);
    e, x := Climb(y, e, x, n, true, 0x114ACA6586, 620674);
    e, x := Climb(y, e, x, n, false, 319226, 342770);
    e, x := Climb(y, e, x, n, false, 97359, 281521);
    e, x := Climb(y, e, x, n, true, 0x1331520A4, 824924);
    e, x := Climb(y, e, x, n, false, 563896, 627000);
    e, x := Climb(y, e, x, n, false, 325766, 780754);
    e, x := Climb(y, e, x, n, false, 505126, 349110);
    e, x := Climb(y, e, x, n, true, 0x1D83C236B, 1);
    OfPowerOne(n, e, y, x, 709359, 46112);
  }

  lemma Prime7240687()
    ensures Prime(7240687)
  {
    Prime1206781();
    hide *;
    Witness7240687By1206781();
    Pocklington(7240687, 1206781);
  }

  lemma Witness7240687By1206781()
    requires Prime(1206781)
    ensures OneModulo(7240687, 1206781)
  {
    hide *;
    var y, n := 64, 7240687;
    FirstPower(y, n);
    var e, x := 1, y;
    e, x := Climb(y, e, x, n, false, 0, 4096);
    e, x := Climb(y, e, x, n, false, 2, 2295842);
    e, x := Climb(y, e, x, n, true, 0x2C6E49E, 1951614);
    e, x := Climb(y, e, x, n, false, 526027, 344447);
    e, x := Climb(y, e, x, n, false, 16385, 5079314);
    e, x := Climb(y, e, x, n, true, 0xD979BCB, 2774395);
    e, x := Climb(y, e, x, n, true, 0x40E2468, 5787944);
    e, x := Climb(y, e, x, n, false, 4626673, 4702785);
    e, x := Climb(y, e, x, n, true, 0xBA6D806, 168102);
    e, x := Climb(y, e, x, n, false, 3902, 5121730);
    e, x := Climb(y, e, x, n, false, 3622876, 7037088);
    e, x := Climb(y, e, x, n, true, 0x1A16EB7C, 4625212);
    e, x := Climb(y, e, x, n, true, 0xB45402E, 3964686);
    e, x := Climb(y, e, x, n, true, 0x8480280, 4938624);
    e, x := Climb(y, e, x, n, true, 0xCD98477, 3549159);
    e, x := Climb(y, e, x, n, true, 0x6A2E9C4, 7025220);
    e, x := Climb(y, e, x, n, true, 0x1A006934, 6443124);
    e, x := Climb(y, e, x, n, true, 0x15DF092D, 3470333);
    e, x := Climb(y, e, x, n, false, 1663269, 905086);
    e, x := Climb(y, e, x, n, true, 7240689, 1);
    OfPowerOne(n, e, y, x, 5746577, 50);
  }

  lemma Prime96557()
    ensures Prime(96557)
  {
    SmallPrimes();
    hide *;
    Witness96557By239();
    Witness96557By101();
    NotMultiple(239, 101, 2, 37);
    JoinModuli(96557, 239, 101);
    Pocklington(96557, 24139);
  }

  lemma Witness96557By239()
    requires Prime(239)
    ensures OneModulo(96557, 239)
  {
    hide *;
    var y, n := 29586, 96557;
    FirstPower(y, n);
    var e, x := 1, y;
    e, x := Climb(y, e, x, n, true, 0xFFC8F61, 70587);
    e, x := Climb(y, e, x, n, true, 0x5AFF7F9A, 3632);
    e, x := Climb(y, e, x, n, false, 136, 59672);
    e, x := Climb(y, e, x, n, true, 0x4108107B, 24545);
    e, x := Climb(y, e, x, n, true, 0xB00C08B, 52131);
    e, x := Climb(y, e, x, n, true, 0x31A22B95, 35185);
    e, x := Climb(y, e, x, n, true, 0x169C1F35, 1);
    OfPowerOne(n, e, y, x, 8329, 2552);
  }

  lemma Witness96557By101()
    requires Prime(101)
    ensures OneModulo(96557, 101)
  {
    hide *;
    var y, n := 63065, 96557;
    FirstPower(y, n);
    var e, x := 1, y;
    e, x := Climb(y, e, x, n, true, 0x9AD51108, 48481);
    e, x := Climb(y, e, x, n, false, 24342, 16867);
    e, x := Climb(y, e, x, n, false, 2946, 38767);
    e, x := Climb(y, e, x, n, true, 0x3A81D638, 29601);
    e, x := Climb(y, e, x, n, false, 9074, 60983);
    e, x := Climb(y, e, x, n, true, 0x90C72548, 1);
    OfPowerOne(n, e, y, x, 50445, 32947);
  }

  lemma ClimbR(y: int, e: nat, x: int, bit: bool, next: int) returns (f: nat, z: int)
    requires PowerIs(y, e, x, 0xC03A94B2D3E64419_A05CD8CCBF987069)
    requires (if bit then (x * x) * y else x * x) % 0xC03A94B2D3E64419_A05CD8CCBF987069 == next
    ensures f == 2 * e + (if bit then 1 else 0) && z == next && PowerIs(y, f, z, 0xC03A94B2D3E64419_A05CD8CCBF987069)
  {
    var t := if bit then (x * x) * y else x * x;
    hide *;
    f, z := Climb(y, e, x, 0xC03A94B2D3E64419_A05CD8CCBF987069, bit, t / 0xC03A94B2D3E64419_A05CD8CCBF987069, next);
  }

  lemma PowersRA0(y: int) returns (e: nat, x: int)
    requires y == 0x3DFA0B72AC447424_8036CE39D059B84F
    ensures e == 0x669B171 && x == 1
    ensures PowerIs(y, e, x, 0xC03A94B2D3E64419_A05CD8CCBF987069)
  {
    hide PowerIs;
    FirstPower(y, 0xC03A94B2D3E64419_A05CD8CCBF987069);
    e, x := 1, y;
    e, x := ClimbR(y, e, x, true, 0x78B5B11B59D04FB4_38BB8C77D4148A73);
    e, x := ClimbR(y, e, x, false, 0x47AC6D26AED2BFCD_F22C139CE524AC40);
    e, x := ClimbR(y, e, x, false, 0x4D92263D2A3A31FE_01A8C29FC510B5D7);
    e, x := ClimbR(y, e, x, true, 0xFE0D39777112E9_D362CAB033B86A3B);
    e, x := ClimbR(y, e, x, true, 0x8E906D7E27755373_C2F07AD9BA1B2FE2);
    e, x := ClimbR(y, e, x, false, 0x401458B3CE469764_33C7957419A96854);
    e, x := ClimbR(y, e, x, true, 0x25E0FA459DB8A36F_3E192A2A455A2D82);
    e, x := ClimbR(y, e, x, false, 0x8AC1D6448143C36F_B956B098DF2796C6);
    e, x := ClimbR(y, e, x, false, 0x1A604593CEC0000F_7E72BE3DAE472EBD);
    e, x := ClimbR(y, e, x, true, 0xB4973BB996649C6B_8CED394FA5C685F0);
    e, x := ClimbR(y, e, x, true, 0x1A92EF4C78998E3B_C0D75B71EC58676A);
    e, x := ClimbR(y, e, x, false, 0x646220782492A908_621F1E8BE3FC90E1);
    e, x := ClimbR(y, e, x, true, 0x220A98BF5A7E5A6A_654D65D8E406E136);
    e, x := ClimbR(y, e, x, true, 0xB98E924FCA8046C2_F52FC39FD09D5E8B);
    e, x := ClimbR(y, e, x, false, 0x7F09A9017E2205AC_08F5923720C712A0);
    e, x := ClimbR(y, e, x, false, 0x6D41DD1B5B6F4E39_168AD5BBAF1F60EE);
    e, x := ClimbR(y, e, x, false, 0x9EA68197966385D7_ED2F277ADE5D762C);
    e, x := ClimbR(y, e, x, true, 0x2E6F0B8264D3B041_27323169465DE72F);
    e, x := ClimbR(y, e, x, false, 0x6432EF073F6BDCF_A12A01FF86018B92);
    e, x := ClimbR(y, e, x, true, 0x4DDA6434C76E8F8A_0829472347C5CABD);
    e, x := ClimbR(y, e, x, true, 0x94786BD4F5FD1C82_FEB0EB2672AF6C8D);
    e, x := ClimbR(y, e, x, true, 0x57D5DB6E761949B7_C9AE0D92B7B7CC84);
    e, x := ClimbR(y, e, x, false, 0x8512F366D97CC4B_E6A9A4B8B49BAA2D);
    e, x := ClimbR(y, e, x, false, 0x307D3023C532CFCE_0AABF8D3261A491E);
    e, x := ClimbR(y, e, x, false, 0xB04EFAEE0B4C78EA_D30A64EBDCD3817F);
    e, x := ClimbR(y, e, x, true, 1);
  }

  lemma PowersRB0(y: int) returns (e: nat, x: int)
    requires y == 0x53AEDF869210FDB3_043E6A09B8D8A514
    ensures e == 7240687 && x == 1
    ensures PowerIs(y, e, x, 0xC03A94B2D3E64419_A05CD8CCBF987069)
  {
    hide PowerIs;
    FirstPower(y, 0xC03A94B2D3E64419_A05CD8CCBF987069);
    e, x := 1, y;
    e, x := ClimbR(y, e, x, true, 0x38A5D91F9687C138_7FBCB9040E70EC5A);
    e, x := ClimbR(y, e, x, false, 0xB9BC7D18863F95D8_4815F245DEC85EB3);
    e, x := ClimbR(y, e, x, true, 0x4CA9A27F3735568_B916DD504443B373);
    e, x := ClimbR(y, e, x, true, 0xC02B52932DF46959_A5E60AF127AECBAD);
    e, x := ClimbR(y, e, x, true, 0x56131D4531254A0F_FF96C84633399994);
    e, x := ClimbR(y, e, x, false, 0x139C7631EABFBADB_058DD6D89B01CDB4);
    e, x := ClimbR(y, e, x, false, 0x95C5F282D9E5D829_2428D32D20414285);
    e, x := ClimbR(y, e, x, true, 0x740D538AF8FFEE1C_9B0C132577821112);
    e, x := ClimbR(y, e, x, true, 0x57E18FF844CE2DCB_E10FDF3313101FBE);
    e, x := ClimbR(y, e, x, true, 0x63C8736B6BD0C9A_097BAEE14252D09B);
    e, x := ClimbR(y, e, x, true, 0x74BCC64E37AD63FF_451F8390EBF1B5E7);
    e, x := ClimbR(y, e, x, false, 0x8E1BF13E3A8A690F_9FAEC698753F5924);
    e, x := ClimbR(y, e, x, true, 0x96715730232915C7_78CA8A5AF6F01169);
    e, x := ClimbR(y, e, x, true, 0x4510D309CCBD840B_05F73D2B1973DAC7);
    e, x := ClimbR(y, e, x, true, 0x8BC68E3C6860A90B_CA1DB9DFC71B13EA);
    e, x := ClimbR(y, e, x, true, 0xBD35CE019FC154D_383EE8C18A69E581);
    e, x := ClimbR(y, e, x, true, 0x5A41995DD0915596_29676773167345BB);
    e, x := ClimbR(y, e, x, false, 0x980D2120B33D9582_744B5AF15A40EC89);
    e, x := ClimbR(y, e, x, true, 0x54C6BE24F39404E1_B4243EE16F3D338E);
    e, x := ClimbR(y, e, x, true, 0x3020FA3062CB57B0_38085F1F6FEF170C);
    e, x := ClimbR(y, e, x, true, 0x54976A8E3A09D6C1_784142D7B450471B);
    e, x := ClimbR(y, e, x, true, 1);
  }

  lemma PowersRC0(y: int) returns (e: nat, x: int)
    requires y == 0x23AC68C78F30CF7C_8DF9ABFDEC7D9F64
    ensures e == 96557 && x == 1
    ensures PowerIs(y, e, x, 0xC03A94B2D3E64419_A05CD8CCBF987069)
  {
    hide PowerIs;
    FirstPower(y, 0xC03A94B2D3E64419_A05CD8CCBF987069);
    e, x := 1, y;
    e, x := ClimbR(y, e, x, false, 0xAA14DF4DF0B76191_A5848CC2BB4F1AC8);
    e, x := ClimbR(y, e, x, true, 0x542DBB49D29759A6_6268E85C53399EF7);
    e, x := ClimbR(y, e, x, true, 0xA333C9AA0191E0C1_7EF030290B0342BD);
    e, x := ClimbR(y, e, x, true, 0x1966713F88A22E41_BA1A1213162783CB);
    e, x := ClimbR(y, e, x, true, 0x7913514E01C3EABF_A283D61C432D36A1);
    e, x := ClimbR(y, e, x, false, 0x394AF79918617E99_8EC279403529E674);
    e, x := ClimbR(y, e, x, false, 0x230808773D222857_06D00D65FD23870C);
    e, x := ClimbR(y, e, x, true, 0xA55ECB54D2724506_26C24C84D1B663D9);
    e, x := ClimbR(y, e, x, false, 0xAFD494EA76462993_8BFF376C7BB25782);
    e, x := ClimbR(y, e, x, false, 0x42EBC4F4685CA9C0_AE63A9F9717DC4AE);
    e, x := ClimbR(y, e, x, true, 0x21C183982BBFA782_79C4E850EAEEE75B);
    e, x := ClimbR(y, e, x, false, 0x7A301D840C3135C8_5A23581B6E92FE2C);
    e, x := ClimbR(y, e, x, true, 0x30F250C5E4B69E0D_A1AD64B9106B5109);
    e, x := ClimbR(y, e, x, true, 0x9F9DF630DADF1387_2460AF7FBF9EAFE3);
    e, x := ClimbR(y, e, x, false, 0x603EF01AF1A4F0D_7856D745C3395112);
    e, x := ClimbR(y, e, x, true, 1);
  }

  lemma PrimeR()
    ensures Prime(0xC03A94B2D3E64419_A05CD8CCBF987069)
  {
    Prime107590001();
    Prime7240687();
    Prime96557();
    hide *;
    var y := 0x3DFA0B72AC447424_8036CE39D059B84F;
    var e0, x0 := PowersRA0(y);
    OfPowerOne(0xC03A94B2D3E64419_A05CD8CCBF987069, e0, y, x0,
               0xB0DB0609FAEEA745_32AC512DA850B227,
               0x39052D42706F6EBB_37EEAC926C44F4B9);
    var y1 := 0x53AEDF869210FDB3_043E6A09B8D8A514;
    var e1, x1 := PowersRB0(y1);
    OfPowerOne(0xC03A94B2D3E64419_A05CD8CCBF987069, e1, y1, x1,
               0x84109EDA3AE1D086_6772B20B1456E44D,
               0x397DED951CC0694D_CDD7B28CF8586646);
    NotMultiple(0x669B171, 7240687, 14, 6220383);
    JoinModuli(0xC03A94B2D3E64419_A05CD8CCBF987069, 0x669B171, 7240687);
    var y2 := 0x23AC68C78F30CF7C_8DF9ABFDEC7D9F64;
    var e2, x2 := PowersRC0(y2);
    OfPowerOne(0xC03A94B2D3E64419_A05CD8CCBF987069, e2, y2, x2,
               0x275F06E520CF17B3_013A76586486DA13,
               0x74E7283CDF390ED_D3E6F1D05C6CC498);
    NotMultiple(0x2C485037BF37F, 96557, 8068037755, 61152);
    JoinModuli(0xC03A94B2D3E64419_A05CD8CCBF987069, 0x2C485037BF37F, 96557);
    Pocklington(0xC03A94B2D3E64419_A05CD8CCBF987069,
                0x4_13E46D83265FD453);
  }

  lemma ClimbQ(y: int, e: nat, x: int, bit: bool, next: int) returns (f: nat, z: int)
    requires PowerIs(y, e, x, 0x1DB8260E5E3B_460A46A0088FCCF6_A3A5936D75D89A77_6D4C0DA4F338AAFB)
    requires (if bit then (x * x) * y else x * x) % 0x1DB8260E5E3B_460A46A0088FCCF6_A3A5936D75D89A77_6D4C0DA4F338AAFB == next
    ensures f == 2 * e + (if bit then 1 else 0) && z == next && PowerIs(y, f, z, 0x1DB8260E5E3B_460A46A0088FCCF6_A3A5936D75D89A77_6D4C0DA4F338AAFB)
  {
    var t := if bit then (x * x) * y else x * x;
    hide *;
    f, z := Climb(y, e, x, 0x1DB8260E5E3B_460A46A0088FCCF6_A3A5936D75D89A77_6D4C0DA4F338AAFB, bit, t / 0x1DB8260E5E3B_460A46A0088FCCF6_A3A5936D75D89A77_6D4C0DA4F338AAFB, next);
  }

  lemma PowersQ0(y: int) returns (e: nat, x: int)
    requires y == 0x7B08CCBE474_9CEB24C5EDD1BCDF_1F473D4AAC9B1396_0CE85A31117C6622
    ensures e == 0x180752965A7 && x == 0x18CC6886F3E7_B61BE4C82EA0C64B_DEB7B4D6BE3AF448_FB19C3BAAD3FFD1A
    ensures PowerIs(y, e, x, 0x1DB8260E5E3B_460A46A0088FCCF6_A3A5936D75D89A77_6D4C0DA4F338AAFB)
  {
    hide PowerIs;
    FirstPower(y, 0x1DB8260E5E3B_460A46A0088FCCF6_A3A5936D75D89A77_6D4C0DA4F338AAFB);
    e, x := 1, y;
    e, x := ClimbQ(y, e, x, true, 0x1507822A81AD_CB3F784CF47F5AB7_482B6FF9BAB672F0_D25CA10B2D4DAF5E);
    e, x := ClimbQ(y, e, x, false, 0xC2C2F007A20_ACCCB560CCED8233_7A62BDC050893040_7CCC95372D40A042);
    e, x := ClimbQ(y, e, x, false, 0x10DF691D2C10_07E565A341DDED5C_5B98C365E4241475_181F34E41486D4DC);
    e, x := ClimbQ(y, e, x, false, 0xC905CDD02B2_33C77D7E4799BBCF_A3AE99F29CAB5E15_A5F514A12021698F);
    e, x := ClimbQ(y, e, x, false, 0x14CF455DFB9B_8A6251BE9FE13DA1_3932327BCC4765C1_5B28BFA09F313EC5);
    e, x := ClimbQ(y, e, x, false, 0x686A3C0456B_6022393D4F9C4333_B9450636865A88B2_CFD8AC9F1EB915F1);
    e, x := ClimbQ(y, e, x, false, 0x16D2016F7FB6_6F916BE1FDC1978D_F5835345D54CB48F_2FF9E86E1214CD4D);
    e, x := ClimbQ(y, e, x, false, 0x113AFB02A9E7_ACD5D7CDC8FB21F1_8B4152406B0F2837_D2F193D9EBB9F893);
    e, x := ClimbQ(y, e, x, false, 0xDB5C8CCAF13_D522982AA827E759_2F917EC8CC2755E5_8382DE4EC6A8F067);
    e, x := ClimbQ(y, e, x, true, 0xB5BF9AF1D51_FC1C5E87E1FB1266_153E696B1D4DAFBE_049BC9E4F0899EBD);
    e, x := ClimbQ(y, e, x, true, 0xF0A3B7FE46F_ECB5F045B2414BBD_212646EC2FDB4524_276D439C8253A1E6);
    e, x := ClimbQ(y, e, x, true, 0x5C2310A28A1_C0E86606BE9FD853_35FC344BB7E0BEF8_E422D1003E8E575F);
    e, x := ClimbQ(y, e, x, false, 0x148510C2F99A_CD10AEE5E4D41044_F4C353A38D26E829_BFE8A650302B0048);
    e, x := ClimbQ(y, e, x, true, 0x8B0A2484F9D_6365C96F4E550825_0A9988A87C28660D_5DE22C7BFAA00623);
    e, x := ClimbQ(y, e, x, false, 0xD4008209C1C_F8E677FD86E2783D_CD3E5B68E6C4D98B_DC64F6978655B830);
    e, x := ClimbQ(y, e, x, true, 0x1994ED160204_A7C9378D64291A62_9080448BDA54E8AF_738C067B361E3A14);
    e, x := ClimbQ(y, e, x, false, 0xE1AE136A2DE_814E24CEF8E9DEF1_76B7D8D41F7C7B05_D1956BF2BB25D1BC);
    e, x := ClimbQ(y, e, x, false, 0x44E210C535E_9DBA5BFB0E60BA7A_5C616C6B9AC9A2CA_4589A8354EE5042D);
    e, x := ClimbQ(y, e, x, true, 0x1A2740019447_7664AAEB1F8E55C5_F8D9AE8655A4049F_4878BC67ED7187BA);
    e, x := ClimbQ(y, e, x, false, 0xC67A4B6BA00_3B6CEE3E46BADCB2_0743566D674240BB_8D646F4B464E04E8);
    e, x := ClimbQ(y, e, x, true, 0x960ACCA505B_0DD4163630B71579_C913B4D5E90A7A05_50AF5E7550BA3EBA);
    e, x := ClimbQ(y, e, x, false, 0xB17494F76_545BF4B467E768A8_413841CB9F672989_186F1A9203E0D77F);
    e, x := ClimbQ(y, e, x, false, 0x9E9CEB197DE_7EC94228028BABEA_91424ECD507578AF_6B7459F58B4EC015);
    e, x := ClimbQ(y, e, x, true, 0x4B738DE5086_D1B1CE70C0319008_3ACA6D250B332426_081CCE602D270167);
    e, x := ClimbQ(y, e, x, false, 0x32002A6E7EB_F5968BD4039FF6FD_1EECC9D4BDB1B88B_F077A4EDAC4B2EC8);
    e, x := ClimbQ(y, e, x, true, 0x1D058E656167_45F94BF7CB157F36_93AF04DB4D9D2218_C2F8DB37FA3FADF7);
    e, x := ClimbQ(y, e, x, true, 0x306257D2E59_F321D1135B3AD5CF_EE65F846AFB182A8_AC1F7A175AB92239);
    e, x := ClimbQ(y, e, x, false, 0x298E7B96E78_235310C062025CC4_9539C79924EF4814_F8D513EBFE9269D9);
    e, x := ClimbQ(y, e, x, false, 0xAA4DDBA1DDF_B73EAFF6D2267B5B_727855DE31CE1DC7_B74DCB497ECC8B4A);
    e, x := ClimbQ(y, e, x, true, 0x16D03D9943D3_6ED3502C3226D2C2_3BD21BF9D9CF87C1_F6FD6454A2AAA7B3);
    e, x := ClimbQ(y, e, x, false, 0xAFED515E28F_C7EB12B1E43CDC73_B3315B5654EC8D72_6D5D7DB202B72BAF);
    e, x := ClimbQ(y, e, x, true, 0x1749E1D88690_301F042C4496058A_1C3581185CFC315F_7FFA7FAAD2E2DD51);
    e, x := ClimbQ(y, e, x, true, 0x10B936E5D4BD_46D353BFAFB4A1F3_B1848004536909EE_22B809F55A1295AD);
    e, x := ClimbQ(y, e, x, false, 0x1C1EB030215C_C09061F02AD3847C_08CD7C082E75C61B_BC4AF6D082601A3F);
    e, x := ClimbQ(y, e, x, true, 0x949F304DFF1_E14630C64B506183_841D22968884B7C5_1454F9F074D5818E);
    e, x := ClimbQ(y, e, x, false, 0x146E19286733_1DB1D1996431DE2C_7FE15221301C9CDD_186B0AB8491D3B0B);
    e, x := ClimbQ(y, e, x, false, 0x12F1A4ACFFCF_1E94526F93F84418_91BE63EED9BA97CA_3930892A87F74692);
    e, x := ClimbQ(y, e, x, true, 0xF67A45E42E0_7480B3FDB3212954_76102E4B3651090B_56B7C2CC3B126B1C);
    e, x := ClimbQ(y, e, x, true, 0xD4EFAA9B955_B45A33ECB9C85760_4E916140766B950D_3043D620015A19B3);
    e, x := ClimbQ(y, e, x, true, 0x18CC6886F3E7_B61BE4C82EA0C64B_DEB7B4D6BE3AF448_FB19C3BAAD3FFD1A);
  }

  lemma PowersQ1(y: int) returns (e: nat, x: int)
    requires y == 0x7B08CCBE474_9CEB24C5EDD1BCDF_1F473D4AAC9B1396_0CE85A31117C6622
    ensures e == 0x18075_2965A7CC883340B9 && x == 0x392C1F9C1DD_679E2734F29CD709_9FA8DE1E8F9C6524_55BEC135F17409E1
    ensures PowerIs(y, e, x, 0x1DB8260E5E3B_460A46A0088FCCF6_A3A5936D75D89A77_6D4C0DA4F338AAFB)
  {
    hide PowerIs;
    e, x := PowersQ0(y);
    e, x := ClimbQ(y, e, x, true, 0x1192B33AF3BE_A46E1CCA4991872B_FC6E4B7A5467C217_FD4429F79BAB672F);
    e, x := ClimbQ(y, e, x, true, 0x1A595F94FB89_BFD88DB7C345CC92_AF4B6A0082322A91_CDB30B971205398A);
    e, x := ClimbQ(y, e, x, false, 0xCC571BF2FA4_A05AFC2A593B670E_2EEB322CFB85D64C_021E18C6BA69444F);
    e, x := ClimbQ(y, e, x, false, 0xA1D7DFA069D_7D09DEEAE1215D29_561EA42B52B10E80_ABEB56A056A3D82A);
    e, x := ClimbQ(y, e, x, true, 0xC95D63675E4_3913AD66EF22D8B2_2A547AA49F019512_6662EF89231CCA96);
    e, x := ClimbQ(y, e, x, true, 0x120954445428_DA5E281E35C4E469_4AE9600A78492693_2576F7728D85B43D);
    e, x := ClimbQ(y, e, x, false, 0x1548E344DE_538BE4289B46E4C4_A4ABC6FD9F7059DC_2E985ADDAA8C0489);
    e, x := ClimbQ(y, e, x, false, 0xFBCD0959CBE_034270B934E4565F_B5BDD0FDE58FF909_2DFE35E6145CD14D);
    e, x := ClimbQ(y, e, x, true, 0x9B402D6C059_2B0A854F72B6D81D_201F71A9ED15BF4D_CFAB1402D340F41D);
    e, x := ClimbQ(y, e, x, false, 0xF146C4CBD76_923435DF1B768858_AB5601662DAA57B6_CE530EDAC8B68020);
    e, x := ClimbQ(y, e, x, false, 0x4B5C7138DCE_A5F34D9E65B1F303_942E11DB83D6D2A7_EE03355E10E2481F);
    e, x := ClimbQ(y, e, x, false, 0x22833A5FCA0_992F19D379BC80A2_95ADA9D6264284C2_E49F004BE4041C7D);
    e, x := ClimbQ(y, e, x, true, 0xA3F2282EC27_FDC570408C1779D3_6223B30D1F5E63B9_6E62B83AC93B8753);
    e, x := ClimbQ(y, e, x, false, 0x1C89B60BA028_F8F91921A3766A76_8BF73679E450354F_86AB7B77212FF8B0);
    e, x := ClimbQ(y, e, x, false, 0x1F1E2735B97_17E5FF9EF20916EF_0213DDF902BC877B_85A1110573E8EF17);
    e, x := ClimbQ(y, e, x, false, 0x127E4E43E70F_C957488586925F9C_7B97ECA830AB530D_BA93DBC4D016F4C0);
    e, x := ClimbQ(y, e, x, false, 0x810A1D0515B_240CC70D2891A1FD_AD361C4B51A68DE5_D6252CFDF8E9DC61);
    e, x := ClimbQ(y, e, x, false, 0x179F1F25BE1C_A48F5F40EE83E876_9EF657D1707F3351_9B233FFECC2B5C3E);
    e, x := ClimbQ(y, e, x, true, 0x3E0ADFE6B21_1E99D6CECB6457B0_30B6BB2926B42CD3_7A0445C01B89242C);
    e, x := ClimbQ(y, e, x, true, 0x12F28C3998A6_C7DB2645C520F964_FB4A98A0AEB33EF5_7DDC6078D51C452D);
    e, x := ClimbQ(y, e, x, false, 0x156C73CB6426_83BF6232D602D935_3958A9F05D64492D_F31DF8DBC5B6236F);
    e, x := ClimbQ(y, e, x, false, 0x13334B092767_233E76EF90FC8D92_A2714F6F2120D4D2_F547571C25E054F2);
    e, x := ClimbQ(y, e, x, true, 0x174B3EADAE28_F225E73619BC54C5_60611E1A0EE7462C_46324B4E659CBFFD);
    e, x := ClimbQ(y, e, x, true, 0xBCBF7BB2F1E_AD6604506C920674_3F7D82310216E673_00B5CF0D2C83A229);
    e, x := ClimbQ(y, e, x, false, 0x19C2E1362A06_FE1CF067173743BF_05D74E0BE12D4C2F_92FD9A276E96F03D);
    e, x := ClimbQ(y, e, x, true, 0xFC819DA4FF6_4D23B976E4C734FE_0AD9C9C0A617FB75_3C9BB861DBD14AB7);
    e, x := ClimbQ(y, e, x, false, 0xFE4ECE2CEF_766107A2EC60F4D5_E7941827FA299FA8_F01CFA5B6BB1E5E7);
    e, x := ClimbQ(y, e, x, false, 0xC3316EC7354_174B6E316FAB4278_B1B764A12806B1B5_54FE8478BD0D6ADC);
    e, x := ClimbQ(y, e, x, false, 0x3B6C30422B0_DF4F1BAB5B213458_F01F069CC53FF8DD_975178D653B4EBE7);
    e, x := ClimbQ(y, e, x, false, 0xA579C25FFA3_C97B9C6201901C89_C4A5817F24D43E9A_C2729242C034011B);
    e, x := ClimbQ(y, e, x, false, 0x137166E8F03A_99E1E9835FFDE1E4_75D8DFB6C68BA5C1_1000F146219B6774);
    e, x := ClimbQ(y, e, x, false, 0x1CDEBB190F31_441FB0007E8F4352_DF81B8E6010CE623_122E75B8D5A797BE);
    e, x := ClimbQ(y, e, x, true, 0x1747A1D609CB_35853BE519C8A385_8FFD3E3FFFFEC7E3_8D1460773AF1F589);
    e, x := ClimbQ(y, e, x, false, 0x871CDFD7655_E65DFDE5D99CAF7C_15F426D2905A1160_8E936021EC3144D3);
    e, x := ClimbQ(y, e, x, true, 0x1314CABB33E7_734A079EAF4399A2_055A4503C3E5BA2F_7FA138D6E39FD8F8);
    e, x := ClimbQ(y, e, x, true, 0xE7029418F59_737E67F1CD9C8A47_338FAEB462777068_E52CBDF789F5446C);
    e, x := ClimbQ(y, e, x, true, 0x1193764ECA9C_C482E7990DBF5F07_64136EC7FF294450_293554A0E7558763);
    e, x := ClimbQ(y, e, x, false, 0x1645D6EFEB61_54424216F9423BD6_86F943D54EC12432_1DE8391634FC58FD);
    e, x := ClimbQ(y, e, x, false, 0xC0D0990983A_9D7063B582C7234A_D64A9AFAC8A84A0B_F9656B408B8CCF9E);
    e, x := ClimbQ(y, e, x, true, 0x392C1F9C1DD_679E2734F29CD709_9FA8DE1E8F9C6524_55BEC135F17409E1);
  }

  lemma PowersQ2(y: int) returns (e: nat, x: int)
    requires y == 0x7B08CCBE474_9CEB24C5EDD1BCDF_1F473D4AAC9B1396_0CE85A31117C6622
    ensures e == 0x180752965A7CC88_3340B9B1997F30E0 && x == 0x11FEAB2AD514_F80DB889C24F41B2_EF6E424F0AAC41DB_FA24F0ACBD90DA94
    ensures PowerIs(y, e, x, 0x1DB8260E5E3B_460A46A0088FCCF6_A3A5936D75D89A77_6D4C0DA4F338AAFB)
  {
    hide PowerIs;
    e, x := PowersQ1(y);
    e, x := ClimbQ(y, e, x, true, 0x44496CBB67F_CB82DA682701EDE2_2A7D65328BB9321B_EB76D5E8E8E819D2);
    e, x := ClimbQ(y, e, x, false, 0x12E9C562015C_0CD87357C87F89C3_FE75DACBEA05F6D3_01DC6E46BBF63B88);
    e, x := ClimbQ(y, e, x, true, 0xEEA3C78BD6B_30AA8304079D9998_2C2F89D7609E025B_39266BD2D47DE939);
    e, x := ClimbQ(y, e, x, true, 0x13D39CD40C89_B1754FB17BB250CA_BAE2424E19E0D8FE_EE9C1BA137C4F154);
    e, x := ClimbQ(y, e, x, false, 0x12A2BC0BC8DA_21CCB93739688BC3_4783BCA984E02C16_0EEE415BC47F2794);
    e, x := ClimbQ(y, e, x, false, 0x1AF4C01E5CFD_944334A5C0FAAB69_22ACD5B449B998A1_D55EFE7C28887A49);
    e, x := ClimbQ(y, e, x, false, 0x2E602CA74F7_5432E1B4503ADCD1_7E83B26C72C3E6D6_90A77857F45DE10A);
    e, x := ClimbQ(y, e, x, true, 0x7BE8C6FB696_0234A53967F89EBB_BEE10C7412DC4502_174E554F15825117);
    e, x := ClimbQ(y, e, x, true, 0x1B7BF7A208E2_20037B0A4B31475B_29CE478E1239B213_80BFC203B540E47B);
    e, x := ClimbQ(y, e, x, false, 0x1CB25D7BEBFA_96B85CC23F928B74_EA3E1931FB0FC88C_BB7C222DE376DA29);
    e, x := ClimbQ(y, e, x, false, 0xAEAC6E1CF66_03B141FF8A89D4DA_6388728C0A9A6145_235D3606C0A8E60B);
    e, x := ClimbQ(y, e, x, true, 0x1762B7228CE6_9ADC45E6E96BD305_EBB28FE8A935277B_B726FC561D66BE73);
    e, x := ClimbQ(y, e, x, true, 0xD62CEE5C9D_532EF53B6EA9D80D_E0F4E5FB11002288_97D85E8376C774D9);
    e, x := ClimbQ(y, e, x, false, 0x36FAD2D9C5C_717F40FC375B2EF2_B2137D71B436B751_B4558C58F3365D84);
    e, x := ClimbQ(y, e, x, false, 0x16EE10354A9C_26A1589BE6362F3A_ED72B452AB28B2B8_1018DAB7C032DFAB);
    e, x := ClimbQ(y, e, x, true, 0x15824D60A8A_DFCF789E7B3FBCAF_C2FE390D7546FBDC_25FE3F9491E578AA);
    e, x := ClimbQ(y, e, x, false, 0x1C8A7CE61E90_925396510F3A004A_4F7B7FFBE48829C8_B823360C1D7D33A6);
    e, x := ClimbQ(y, e, x, true, 0x10D1D3E2265D_58BA8FB58C28DF2D_1A914FA80215C5C3_224C1CDFEF7C93AA);
    e, x := ClimbQ(y, e, x, true, 0x11E8D6516970_4656218BEDC5C4FE_E82B9B3382167FFB_C9DEF22D0D3F9ED6);
    e, x := ClimbQ(y, e, x, true, 0x1CB89685AED2_E9E2A802D8E65613_BB8B849AC51C9FA1_8DA29A56D1F28957);
    e, x := ClimbQ(y, e, x, true, 0x5E3963BF53E_7DACAEE78AC6F586_5AE6DA2E9ACE45B2_6651AE4E76EA3A75);
    e, x := ClimbQ(y, e, x, true, 0x1846586B7F24_6AE67AA3C93BFD02_8D29EB053F1B95E1_C5AFBDAF54691FA8);
    e, x := ClimbQ(y, e, x, true, 0x18E37661188B_7046D7B84AEA62C3_A0471C6A58D62918_436C3E350FD4F9EC);
    e, x := ClimbQ(y, e, x, true, 0x12A6D57CD0FD_D7AE95912FF04B71_32BB677BFAC4955B_149D16C2B76D8100);
    e, x := ClimbQ(y, e, x, false, 0x460DE613654_D8540C47CBAA225D_4337211D69D53A59_C6DDBFFFFA904196);
    e, x := ClimbQ(y, e, x, false, 0x137DE0B46E79_097315CFF2930D8A_38F70548F914D497_AA7E522F2BA694F1);
    e, x := ClimbQ(y, e, x, true, 0x23EDF362CD2_98B54A3A345E2875_C2CF046DA2027EF2_953A70F8CB5858EA);
    e, x := ClimbQ(y, e, x, true, 0x7ECB1634514_F51E089C7BB27D39_7941CB7D4FFE4273_ADBA38494205967A);
    e, x := ClimbQ(y, e, x, false, 0xBD10499ACA5_BD8B05291EB01CBD_5D58A66A29E6F5BC_2482996CEE0F7AFD);
    e, x := ClimbQ(y, e, x, false, 0xF8E873B8FB8_040072F2ADD9CA09_C75BFCE1B71105D7_9178D128B7018416);
    e, x := ClimbQ(y, e, x, false, 0x191B8EA88E33_B03522E3F645BF39_6FBA7E2AC9AE2C90_26298BEDC9F1B464);
    e, x := ClimbQ(y, e, x, false, 0xB3341C312DE_0FFB66FF0D927ED0_95B2AD7666B8399C_15DCB10414608B97);
    e, x := ClimbQ(y, e, x, true, 0x1C2E6C13DC24_CE02B301E1C5B597_E626A44814C94B16_6463071C07EAC596);
    e, x := ClimbQ(y, e, x, true, 0xF829EF28204_9499BED423399AAA_CB5FDAD06EB919A6_938B4DB7B5453D19);
    e, x := ClimbQ(y, e, x, true, 0x14600D0CA43A_ECF3DCBE2E599849_6C7A95763F0B3CAE_A5AEFF32C0ECFCBE);
    e, x := ClimbQ(y, e, x, false, 0xFB4C3E24FF7_2E56BFF4205F1F0D_699637D0F359FE49_62B163FB1CCA844F);
    e, x := ClimbQ(y, e, x, false, 0x1A3A8B74C424_1E7221DB84A3FFEB_5A407323987E905F_706DC28C9C28117F);
    e, x := ClimbQ(y, e, x, false, 0xD75D6B5AEA8_D03CDD93D108053C_5086D31BEEAED71B_27169DE8A625A132);
    e, x := ClimbQ(y, e, x, false, 0x2210CC68B96_4BA3E45CC889E3D0_A0567B4CB86F93AB_F3D6CEF69FF095F4);
    e, x := ClimbQ(y, e, x, false, 0x11FEAB2AD514_F80DB889C24F41B2_EF6E424F0AAC41DB_FA24F0ACBD90DA94);
  }

  lemma PowersQ3(y: int) returns (e: nat, x: int)
    requires y == 0x7B08CCBE474_9CEB24C5EDD1BCDF_1F473D4AAC9B1396_0CE85A31117C6622
    ensures e == 0xC03A94B2D3E64419_A05CD8CCBF987069 && x == 1
    ensures PowerIs(y, e, x, 0x1DB8260E5E3B_460A46A0088FCCF6_A3A5936D75D89A77_6D4C0DA4F338AAFB)
  {
    hide PowerIs;
    e, x := PowersQ2(y);
    e, x := ClimbQ(y, e, x, true, 0x1BB3A4D20EA7_5FB5AA39DD0D06D1_6A5E47BED7A986D6_35A729DA651E8B17);
    e, x := ClimbQ(y, e, x, true, 0x7B9525FA47A_569E80D83096B783_9BE6E4EA65935449_E98F731D403F6D85);
    e, x := ClimbQ(y, e, x, false, 0xE3243B57025_073C59F28780D20C_EE1BEC8F367EAA6F_8A6FF1DF42ADDCBE);
    e, x := ClimbQ(y, e, x, true, 0xACEF3ED62D0_6A38F8C1A22DFAFA_AF8307F636B023D7_C4411084C7157369);
    e, x := ClimbQ(y, e, x, false, 0x17B865DAA7D6_434DEFB0C1A2CFC2_967921CF3D690985_9EC69566D44B4110);
    e, x := ClimbQ(y, e, x, false, 0x84ABD834F41_0A145E8196091C14_7329C2D785626C18_5839B30DA53FBD4C);
    e, x := ClimbQ(y, e, x, true, 1);
  }

  lemma PrimeQ()
    ensures Prime(0x1DB8260E5E3B_460A46A0088FCCF6_A3A5936D75D89A77_6D4C0DA4F338AAFB)
  {
    PrimeR();
    hide *;
    var y := 0x7B08CCBE474_9CEB24C5EDD1BCDF_1F473D4AAC9B1396_0CE85A31117C6622;
    var e0, x0 := PowersQ3(y);
    OfPowerOne(0x1DB8260E5E3B_460A46A0088FCCF6_A3A5936D75D89A77_6D4C0DA4F338AAFB, e0, y, x0,
               0xBCE1BAE6645_F252963752A74333_138F457AAF3FBC9C_842FBCD0B8D48AEB,
               0x30DF27EF44F_1B0D7C0E67E1B615_D72F105E1FAE692A_5C772C6DD0ACACBE);
    Pocklington(0x1DB8260E5E3B_460A46A0088FCCF6_A3A5936D75D89A77_6D4C0DA4F338AAFB,
                0xC03A94B2D3E64419_A05CD8CCBF987069);
  }

  lemma ClimbP(y: int, e: nat, x: int, bit: bool, next: int) returns (f: nat, z: int)
    requires PowerIs(y, e, x, 0xFFFFFFFFFFFFFFFF_FFFFFFFFFFFFFFFF_FFFFFFFFFFFFFFFF_FFFFFFFEFFFFFC2F)
    requires (if bit then (x * x) * y else x * x) % 0xFFFFFFFFFFFFFFFF_FFFFFFFFFFFFFFFF_FFFFFFFFFFFFFFFF_FFFFFFFEFFFFFC2F == next
    ensures f == 2 * e + (if bit then 1 else 0) && z == next && PowerIs(y, f, z, 0xFFFFFFFFFFFFFFFF_FFFFFFFFFFFFFFFF_FFFFFFFFFFFFFFFF_FFFFFFFEFFFFFC2F)
  {
    var t := if bit then (x * x) * y else x * x;
    hide *;
    f, z := Climb(y, e, x, 0xFFFFFFFFFFFFFFFF_FFFFFFFFFFFFFFFF_FFFFFFFFFFFFFFFF_FFFFFFFEFFFFFC2F, bit, t / 0xFFFFFFFFFFFFFFFF_FFFFFFFFFFFFFFFF_FFFFFFFFFFFFFFFF_FFFFFFFEFFFFFC2F, next);
  }

  lemma PowersP0(y: int) returns (e: nat, x: int)
    requires y == 0x429EC5B06C46C205_46D5AABBE15BFBEE_DCADE9791A517F61_9BF3F4135DC4DA10
    ensures e == 0x1DB8260E5E3 && x == 0xC9A02D2ED463D96F_B49DB126D4FF311C_2623ED67597C4C57_7F5A0593697B024D
    ensures PowerIs(y, e, x, 0xFFFFFFFFFFFFFFFF_FFFFFFFFFFFFFFFF_FFFFFFFFFFFFFFFF_FFFFFFFEFFFFFC2F)
  {
    hide PowerIs;
    FirstPower(y, 0xFFFFFFFFFFFFFFFF_FFFFFFFFFFFFFFFF_FFFFFFFFFFFFFFFF_FFFFFFFEFFFFFC2F);
    e, x := 1, y;
    e, x := ClimbP(y, e, x, true, 0x582D89F9D650D72D_2E0E48E60759CCB8_F60E2BB2CCA89409_6311B31B25B24A32);
    e, x := ClimbP(y, e, x, true, 0x58BEBEB62DD6DC11_8770410D5B18A1A9_B1FD74E8883D528C_2F63ED3E3EA64005);
    e, x := ClimbP(y, e, x, false, 0xC58119EEAB919A40_62BC9F0A0A4C00F4_D269E4F543E99716_9854C3E7AC5302E5);
    e, x := ClimbP(y, e, x, true, 0x1F995BC18814DFC_959CE2DB0577829A_044F93E62BF16183_3732334F43D349FE);
    e, x := ClimbP(y, e, x, true, 0x70686807C282E880_D7A62175942BFBB1_338BCCD69406A814_5D4BCA7381CF0E75);
    e, x := ClimbP(y, e, x, false, 0x3B20BE619F17FE83_16134B1BBE8F2618_80B635A7B600CDD1_FB69D36A4284BE40);
    e, x := ClimbP(y, e, x, true, 0xEE41FAB6C8A94ADE_9F67F2FA56D8056C_CF818EE82C2AE9CA_178DB89116B71094);
    e, x := ClimbP(y, e, x, true, 0x90F1982EE951870F_B6E7E282CEBAB83E_A66D4C0D82B31807_08935D17BE293F78);
    e, x := ClimbP(y, e, x, true, 0x4B698A2D936373E8_32247DD539C5E5F5_221CEEF456332719_71C3173D07BCF618);
    e, x := ClimbP(y, e, x, false, 0x50AE48D8F48A0C1_25C147C81E7B9421_353A27CB346C30D9_98A2739CA9AABAC7);
    e, x := ClimbP(y, e, x, false, 0x8D2DB8227134C2DE_73EC421A2BA7E4EE_5EB9C285400DACAE_D3F69E59044BCCE6);
    e, x := ClimbP(y, e, x, false, 0x5DAAEB1C79CF39B5_639443095C93BD14_3333A264CFE0073E_21376EFE7DACE1E6);
    e, x := ClimbP(y, e, x, false, 0xE2875E5B1ABED45B_057621EDA835B753_5A8397847BF8AA19_04E378E47A5C74C1);
    e, x := ClimbP(y, e, x, false, 0x661AB8C1BFA829E7_F542EA296A0E3A79_D5E9DF808C1D74C2_58CEA15EF35D0592);
    e, x := ClimbP(y, e, x, true, 0x2EC86D5B3B667156_3DE665A94C362EFC_F293245A5BCB57F0_4F521F324ED82C65);
    e, x := ClimbP(y, e, x, false, 0xA081FF6B22024398_D4F0665D2A0EE92F_08062652C56A59ED_AB50E42648A7B48B);
    e, x := ClimbP(y, e, x, false, 0x603164A4EB8AC39F_2B2FF709087565A3_F2C79BBB9B505616_0424A184A4059F85);
    e, x := ClimbP(y, e, x, true, 0xD5D79A897D8BA6C3_61E44F0F90041928_D73C0B340E9CF9FB_FC4081A32D63FA21);
    e, x := ClimbP(y, e, x, true, 0x820488DF3EA19A48_C439B2BB18C8DA54_3E946D6018F73C9F_543D5277A308B7AA);
    e, x := ClimbP(y, e, x, false, 0xEEACBC37D29BE238_7CCE121E55092773_22B3C9EB4CCEE1A0_719CB840A49B1F8D);
    e, x := ClimbP(y, e, x, false, 0x477B9AA365BF5BFB_37B66B7E21EDE889_0973C6359E8E1481_596FD43FC37D5A11);
    e, x := ClimbP(y, e, x, false, 0xC8DA19190C2538D8_ED9461FC9E9C0078_A97412751F26A1E2_10D48F3125CBC390);
    e, x := ClimbP(y, e, x, false, 0xA97619C8940244A0_89FF5C4589887EA2_D8342A8CD2CB19A8_2973F192B915E502);
    e, x := ClimbP(y, e, x, false, 0x1E983BDC493206CC_A51BF1ACD2DD905C_6F2E9EC119D7185F_C6A94A50F6A9EA35);
    e, x := ClimbP(y, e, x, true, 0xE8AE788B014FDF28_F6E65938D944E851_9792640B7FAE5FAD_C7F9081978578A60);
    e, x := ClimbP(y, e, x, true, 0x464B637BBE7D39B0_B4D6AAFD692F756C_49C58B9CD09C58F2_FF34EC59CCC96B95);
    e, x := ClimbP(y, e, x, true, 0x990B8DFA8E684736_124F7F6D5A8DF193_72ED484149085691_7589F1325AA88B84);
    e, x := ClimbP(y, e, x, false, 0x69DC24C79C10688C_B11301242DFB31D5_FF9BF492E9895A78_2A60797DD0EFDB16);
    e, x := ClimbP(y, e, x, false, 0xD588FE1D3024ECCF_FAF04C39EF1F2A16_634BE7E537C69330_58E61E5CF56CA326);
    e, x := ClimbP(y, e, x, true, 0x787B5E89E9BD7BA4_A657EA959FE1BE8A_52592FE04D26E429_17E45B0F4FD42F3A);
    e, x := ClimbP(y, e, x, false, 0x67C0C58233A939D7_3AF628F420EE6D9B_4B61DD500C2DC8AB_77156275AF0D229E);
    e, x := ClimbP(y, e, x, true, 0x14E744EDE317FA30_765152A4153B21CD_8372A063FACDB5EF_77B2478B609FDD89);
    e, x := ClimbP(y, e, x, true, 0xC39E49755E72FFCC_63CCE46FD459B661_EA391546E0003C1C_902A193C5F5A197E);
    e, x := ClimbP(y, e, x, true, 0xE98881AF8881210F_B32932374B95DDE5_6F289D3F15775F93_0867DEF95FAF7C11);
    e, x := ClimbP(y, e, x, true, 0x33952F2A430FF2F5_45D17A782FD0A88E_35A9002D643A8659_382BC7DB8E5608CB);
    e, x := ClimbP(y, e, x, false, 0x947D7CF00E48CA7_3C2D274DC9400977_6F6C040E486E7A1E_4552F94DFFADA417);
    e, x := ClimbP(y, e, x, false, 0x7D766A632AB7E810_BFC84C9C53234DD4_C7A4CC28C0883219_B451B9DA1A26F2B6);
    e, x := ClimbP(y, e, x, false, 0x77A02F9C3AA90AF6_9E9F69C028BDDF68_20BCE299BFDB4C6F_A45A6FA47D8FF5D0);
    e, x := ClimbP(y, e, x, true, 0xD762B697AB58D43F_9ADF3A9115B0F17E_8ED909C2A884EA10_D8A6FA8EAD7EA9A0);
    e, x := ClimbP(y, e, x, true, 0xC9A02D2ED463D96F_B49DB126D4FF311C_2623ED67597C4C57_7F5A0593697B024D);
  }

  lemma PowersP1(y: int) returns (e: nat, x: int)
    requires y == 0x429EC5B06C46C205_46D5AABBE15BFBEE_DCADE9791A517F61_9BF3F4135DC4DA10
    ensures e == 0x1DB82_60E5E3B460A46A00 && x == 0x261F004914D56C96_B9F1F596FA245106_2D2886F58CD5D3C4_09895F67D56E7FF6
    ensures PowerIs(y, e, x, 0xFFFFFFFFFFFFFFFF_FFFFFFFFFFFFFFFF_FFFFFFFFFFFFFFFF_FFFFFFFEFFFFFC2F)
  {
    hide PowerIs;
    e, x := PowersP0(y);
    e, x := ClimbP(y, e, x, true, 0xDF45F46420FCE897_453B56BC8DEE4EDF_3695EAD22149BD5E_9E063AD70605EBAA);
    e, x := ClimbP(y, e, x, false, 0x1830D0BE034E8A3E_4F5DBD0EC484A176_A381B62273BB6618_86E56C1E28DC876E);
    e, x := ClimbP(y, e, x, true, 0x6EFFB096807F90FF_BDE782DC570DFDBA_C904BE0AA4BB7DED_F59A69B013784FB4);
    e, x := ClimbP(y, e, x, true, 0x17FDCB2903FE6626_3EDA7333B590C136_A9D833D144C8E549_7E98A726DC45074C);
    e, x := ClimbP(y, e, x, false, 0x61A2B4DBA919406D_C45261C3936C074D_219CD1E685050989_1514DED2B6493A9F);
    e, x := ClimbP(y, e, x, true, 0x916B159797E025EA_9C69A82FDC237B0A_1000BA39EB6D8445_1A319D4250FA2B10);
    e, x := ClimbP(y, e, x, false, 0xB85E84CBC6ACD58A_77C13164A384B742_933F792A2132CE6B_95E659D5C4060651);
    e, x := ClimbP(y, e, x, false, 0x33F70A3D00E4488B_FD387BA4A0EC9ACF_97055CDE748A4161_883D426A8A13C339);
    e, x := ClimbP(y, e, x, false, 0xAFB8EE033FB131F5_1C446DB15783047D_CBC6E071B875C190_79E1A3191EACD302);
    e, x := ClimbP(y, e, x, true, 0xF918B5E2D77523CE_51B56013AEE4747F_CC6A879211E90E06_E1000A3121651FE1);
    e, x := ClimbP(y, e, x, true, 0xFF7B7413989CE295_EB09F9E22B33537B_EFA89B89B249B9F8_EFB870C181F14438);
    e, x := ClimbP(y, e, x, false, 0xDBC06D912F71C9C6_77BB3FA6E12453C3_F575EF4EE9CC36A8_A21138D1EF225FBD);
    e, x := ClimbP(y, e, x, false, 0xAE428579F661E4CE_6F6E166B2DDECF80_C9ABA683B2D6118D_1BBBCF0BF2C2FDF0);
    e, x := ClimbP(y, e, x, false, 0x9F43E7CA40E6792E_BACEF28EA595CC97_7652C4944E58F840_86B49C56EA6CBCF4);
    e, x := ClimbP(y, e, x, false, 0x606B83C04269835C_B53F724348396CDE_021366E140AE4100_DF04AB24E630F247);
    e, x := ClimbP(y, e, x, false, 0x9B0060902C4D9868_3215EFFBE6CDE140_A133DC3232C40CF4_A2D5591CDB77C2B1);
    e, x := ClimbP(y, e, x, true, 0xCF6B0B6F5D9E7E4_62FD26B4A2AA7B51_AFD306675DA5FD3D_3E9A537D8D68952C);
    e, x := ClimbP(y, e, x, false, 0x91558FDB2FDDE3D1_DB87A3D205195C6A_B7EBF783DA3AF138_F1B0DEF9069AD114);
    e, x := ClimbP(y, e, x, true, 0xB40CD59ACCE1ABC4_C5B7A2D6F42D435D_A2B5AEFA0F5DE718_7238535A27B550E2);
    e, x := ClimbP(y, e, x, false, 0x6707A13EC45F9557_D469CA849ED74D30_BF25A041041C645F_09B1A49E99CCF2FE);
    e, x := ClimbP(y, e, x, false, 0x704DA27C93DACFE4_3FECE805999DA014_10DDD22161DB794F_40B1238E3A090D66);
    e, x := ClimbP(y, e, x, true, 0xA128C3E363A499BF_3EE96FF265D493C4_ABC835C05295CD97_E7858D895651801F);
    e, x := ClimbP(y, e, x, false, 0x52B06B0FF72AC35_50A052707FD41EBA_0DBA21A81C00B372_55FF2D9D0ADBC3F5);
    e, x := ClimbP(y, e, x, false, 0x3371A1C2B92F5A4_7BA765B88D2E53D2_0B6B69914A6BB8B8_E1AF68D7CF015EBB);
    e, x := ClimbP(y, e, x, false, 0xB2523FA5C33FE0FC_9EE4969C5995003D_39CE7FF4781B21D6_977576C8963DE5FC);
    e, x := ClimbP(y, e, x, true, 0x9A22FD27F00861CE_F038361CA6B66D3C_113AE03EA6ED5E18_ADB6E3EC929A4E91);
    e, x := ClimbP(y, e, x, true, 0x11EFB5033718311F_DD55726FBEFE12C5_6713C77F8D24D822_B4520353BDD80F5F);
    e, x := ClimbP(y, e, x, false, 0x2123718730CA083A_D7FA003CF331DB1F_693EBF2429B02739_5306D8DD81AABF4F);
    e, x := ClimbP(y, e, x, true, 0xDC0FBBE1E3CC6C80_8BCE11F4C92760B7_2FB7743F58ACC541_1E014EDF41A7750C);
    e, x := ClimbP(y, e, x, false, 0xC5DFA0A62D298AAC_51BE3DC671A0ED27_513D002199F3060F_7FBC6C6FF48C89AC);
    e, x := ClimbP(y, e, x, true, 0x5753D1B3881565E8_4F18400BA7DC2B6A_1E88F4A4C92FE667_F564634DFA0BBB43);
    e, x := ClimbP(y, e, x, false, 0xAC824DA8C1B48CEC_EF3342FFDF38ABC0_649874F9B5AF1E8A_92DBEC032D5BA686);
    e, x := ClimbP(y, e, x, false, 0x525FAE3C0459CE31_5D3B209C220DFB60_A8D5F791C96739D7_9B1EB0E9003CF8F7);
    e, x := ClimbP(y, e, x, false, 0x8AA8E07347AA4458_00A7CDD894560D08_E15D1DCCF2E25637_810E8F0339F79D21);
    e, x := ClimbP(y, e, x, false, 0xD4E7CF4B5B6BC5AA_AE26BB72BB9331B8_E1AEEEC5E28FB6F3_A8B7EFCBDB7835CE);
    e, x := ClimbP(y, e, x, false, 0xEA42DEE016AD860A_18178A6BBE6FC9F1_C6102EB11C9B342E_AEA9CA53373064D4);
    e, x := ClimbP(y, e, x, false, 0x5D1C860011E48604_A3D47B437F71014E_DD1ED1C2101305E6_C8D6A8FA60277621);
    e, x := ClimbP(y, e, x, false, 0x11F07F3FDAA6024E_B011C1297D3CF121_58AFBB292E76BD93_F18B9901586D8426);
    e, x := ClimbP(y, e, x, false, 0x8B0DE5452FB626B4_19FCCD1D2BABE1E4_28C2A147F04686E8_79EF4CC2C97ECC40);
    e, x := ClimbP(y, e, x, false, 0x261F004914D56C96_B9F1F596FA245106_2D2886F58CD5D3C4_09895F67D56E7FF6);
  }

  lemma PowersP2(y: int) returns (e: nat, x: int)
    requires y == 0x429EC5B06C46C205_46D5AABBE15BFBEE_DCADE9791A517F61_9BF3F4135DC4DA10
    ensures e == 0x1DB8260E5E3B460_A46A0088FCCF6A3A && x == 0xBAA212EA299D3AF3_1DE57E632C32A96A_17CFB29298DC01F3_DA0FB3CC2FA1AEA4
    ensures PowerIs(y, e, x, 0xFFFFFFFFFFFFFFFF_FFFFFFFFFFFFFFFF_FFFFFFFFFFFFFFFF_FFFFFFFEFFFFFC2F)
  {
    hide PowerIs;
    e, x := PowersP1(y);
    e, x := ClimbP(y, e, x, true, 0xFB8671862D9BE8C0_D2AE6EFEBE74AE4A_FB88752F22CF49D6_ED43565BF57C1B09);
    e, x := ClimbP(y, e, x, false, 0xE730C9CDD1D6FAB6_D31BB0630CD06A32_6CA68906667D77EB_3C1AAB46534597D9);
    e, x := ClimbP(y, e, x, false, 0x22EB206569658422_626E522D3BFC5723_2640E9A4CC6538BD_6FE6AA4C03200904);
    e, x := ClimbP(y, e, x, false, 0x134402C586753EE9_0DAED7E1672AB3DC_B3E8BDE0C56BF2EF_D7853E4E21F7D096);
    e, x := ClimbP(y, e, x, true, 0xC0ECD65D5D060B63_FE627FE7BEE97A15_09F88B989622AA73_9B7634D426F43466);
    e, x := ClimbP(y, e, x, false, 0x731187896877938A_77F359768743E342_ABF820DAF99F6A6B_985454B988B42615);
    e, x := ClimbP(y, e, x, false, 0x4BF8C5360619D213_93DA3469BF33E41D_79BDAB82D7D65B49_201DF4FD30954A7E);
    e, x := ClimbP(y, e, x, false, 0x4423F5290605F67D_606CDB2C5EB05F33_E343C2B86C4417BA_A5121622A4BEEB70);
    e, x := ClimbP(y, e, x, true, 0x11A063FB67AE27AE_4C8463A3AD11E432_02838690185715AF_6E0A410F527DDE15);
    e, x := ClimbP(y, e, x, true, 0xF22AB841007A0663_BAACBFE07A5C6879_C7C8DB52E3392752_974346810FAD484E);
    e, x := ClimbP(y, e, x, true, 0x50FD4D7D683ECD12_6597558D5AA8A5D1_B7F00A681321ABC2_C7F9781B9227890A);
    e, x := ClimbP(y, e, x, true, 0xB220ABA720718031_F2B7FAA2C25DCBEC_5BCEAC2AD432F1ED_49F895858C8B1B1C);
    e, x := ClimbP(y, e, x, true, 0xE39BC2E0D340643E_A55DB5448460A6B7_71AFAEA66A65BE1B_9DCBF2BCAAE7797B);
    e, x := ClimbP(y, e, x, true, 0xCC064A6559B4B0B7_300046A1449DAB62_9BA42F5E80E23270_C19024BD70C503FC);
    e, x := ClimbP(y, e, x, false, 0xF0D427F862D9DB42_F25CBC5D79E0AE97_22902678A7C9E937_7103A0113B4358BB);
    e, x := ClimbP(y, e, x, false, 0x93D2C0B3C4B3DD6B_D1FA15633C71F49A_9844F246279562CE_8E0B4C9D19B17F5B);
    e, x := ClimbP(y, e, x, true, 0xCD21B72C8CED575D_E2E92D6F9CB026E9_1F75E06D043A53E0_AFB16691B9CB0AB0);
    e, x := ClimbP(y, e, x, true, 0x2D1857A38B472AA2_BD1C3DEEFBAAD6EA_187B64AF5A79A0F7_7178EAB6E13CA5ED);
    e, x := ClimbP(y, e, x, false, 0x542EA853861BC2CE_47BA31AC9260732B_6A4A3A86FAC3E08C_AD5CCC799F2D9235);
    e, x := ClimbP(y, e, x, false, 0x8CF563EAA0A37E56_34DBB13475C43B36_3E991236A80468CA_59E7F8A38A3150EA);
    e, x := ClimbP(y, e, x, true, 0x76598D24B8A7B72_BD9100306B5992F7_439ADD4C61C0B8A0_D3D577710E3C0F62);
    e, x := ClimbP(y, e, x, true, 0xD095FAD09D26C618_B73326FD5C00310E_D13000ADA2E993AF_17726A9C65467F28);
    e, x := ClimbP(y, e, x, true, 0x20AB95FCBC4A250C_6BB61E2EB8718BE2_1B0EA5DC19A0E5AC_A2D7904E516774F6);
    e, x := ClimbP(y, e, x, true, 0x2780C7084CB833D4_818FEFD275A1B0FE_9AA84CE75426A8A6_0CBAF3922B536F45);
    e, x := ClimbP(y, e, x, false, 0x7F4F443E6BB5B9DE_648A363A908D3DED_A451ED08E468534B_578F5C1A1393491E);
    e, x := ClimbP(y, e, x, true, 0x2DAEAF9B1864C9F8_AAB210B9523B86EF_11C0A7A3D847D756_BB423680C1216D36);
    e, x := ClimbP(y, e, x, true, 0x3D6BDE08D3D89654_7C0B42631C55F010_4E17481108EB47F5_07F154CA6B337858);
    e, x := ClimbP(y, e, x, false, 0xF51B05D65F6381F8_1224FBA75390ECC6_FF1C33041538FA3D_4FE76413F25F3AA3);
    e, x := ClimbP(y, e, x, true, 0x279F0D5997D85568_7E3CFFABC41172B4_8563610083203FB8_11CB42D5B42BE3DB);
    e, x := ClimbP(y, e, x, false, 0x9E2682F93C819A15_D6C44AA42CF3CB72_6A37198120A3747C_DF53BC7AE57070B5);
    e, x := ClimbP(y, e, x, true, 0x751DE703559BCADD_B7C87F3C95B533A9_7B6E0F722DFC6DF0_F1F4135F7607E30A);
    e, x := ClimbP(y, e, x, false, 0x1E8A1740B4F4A138_FA5F0B16197E502C_A173B410E53E6CC2_EF124F2B1DF6E34A);
    e, x := ClimbP(y, e, x, false, 0x8E5D8E5E7FDA485_2AFCDBB784483C87_AB3470AB7771D352_A6DF04771CC9D29C);
    e, x := ClimbP(y, e, x, false, 0x5428D730859D55BD_6862842CDA5737B0_4C4ADE31278AE5E3_13A503163194EDFC);
    e, x := ClimbP(y, e, x, true, 0x47657BAAB7DDC930_32D1B07F463D55ED_F8E867D3E55906C9_E1ACBA638DC7A081);
    e, x := ClimbP(y, e, x, true, 0xD9176C5F5DCFEF25_8BFCB186D29D788A_7B0D0EB998B677EE_7B4908EEE375A364);
    e, x := ClimbP(y, e, x, true, 0x6CAE1A1CD16B362A_892B66637312F325_9DBBD794CC9ED0EC_6AF2EC14E656B8CB);
    e, x := ClimbP(y, e, x, false, 0x118CFCC7F3A6B8C1_47E4998EAFF35091_A652DDF6A0146E2A_08A34AF6B2DC6660);
    e, x := ClimbP(y, e, x, true, 0xD40724B98C57D5_E3F093A035C5EC2B_765284BDF38CE97B_BE48650EFA5E3E07);
    e, x := ClimbP(y, e, x, false, 0xBAA212EA299D3AF3_1DE57E632C32A96A_17CFB29298DC01F3_DA0FB3CC2FA1AEA4);
  }

  lemma PowersP3(y: int) returns (e: nat, x: int)
    requires y == 0x429EC5B06C46C205_46D5AABBE15BFBEE_DCADE9791A517F61_9BF3F4135DC4DA10
    ensures e == 0x1DB8260E5_E3B460A46A0088FC_CF6A3A5936D75D89 && x == 0x720B674B55C74574_19BBFE383BEE98C7_924998C01F17E12C_A397C7D6814850E3
    ensures PowerIs(y, e, x, 0xFFFFFFFFFFFFFFFF_FFFFFFFFFFFFFFFF_FFFFFFFFFFFFFFFF_FFFFFFFEFFFFFC2F)
  {
    hide PowerIs;
    e, x := PowersP2(y);
    e, x := ClimbP(y, e, x, false, 0x4D32B0E5CCFFEB59_0146D9AA6903931D_59B8402A78D3DB45_91CD2B3566E4D18D);
    e, x := ClimbP(y, e, x, true, 0x77FAF2D13A6C03B0_B9A8353CD7A5030F_71B5CDE2294DC427_64ED58A4891526AA);
    e, x := ClimbP(y, e, x, false, 0x594AE10D52D8C2A4_0832CAA3293D169C_3141E9D441B7B587_940C5E0704B7D009);
    e, x := ClimbP(y, e, x, true, 0x520CF0E7AAF7FD50_82163238218F0A54_827769DD874F61B0_68B745EFF0F14CFA);
    e, x := ClimbP(y, e, x, true, 0xD7B6F87CEB6D3322_0F90BA2D9EBE318D_99D5868FFEF09FDE_4C97738C72C92346);
    e, x := ClimbP(y, e, x, false, 0x9965B92DF70E4220_D6441CFB7FEA7F00_148A53F7A32E839F_6687273ABC4E740A);
    e, x := ClimbP(y, e, x, false, 0x7B1A1E72EAE68181_7A0DC02C32F068F4_94ADCB384AEB48C4_AC369A944F354008);
    e, x := ClimbP(y, e, x, true, 0xF79CD270B3949EA9_25D4BEECF84DF127_239D9C8941ABB3A8_85F0D669B90FBA0B);
    e, x := ClimbP(y, e, x, false, 0x3107B80A5CBBF3CF_D136202F3BBECBE6_75F32F77A6A90FFC_1F3B2C6D5AC51E94);
    e, x := ClimbP(y, e, x, false, 0xD3CADDE8D6913B3E_0EBCECA357A7B418_DC73D66C47D32558_C89779CB03F972C5);
    e, x := ClimbP(y, e, x, true, 0x9AAAB4996D8C7B01_FD80E0573A995D79_80DE19780A0455A7_E2D875D1D61AC0C7);
    e, x := ClimbP(y, e, x, true, 0x12C8F54D6C2DA79B_7644F8B709A700C1_B3F7E845E54E18F1_9A59356320FD295C);
    e, x := ClimbP(y, e, x, false, 0xF7C8377BCD57B142_A6D92EB3A017C55A_26183C4DF3E32B84_A4290640946F0A6D);
    e, x := ClimbP(y, e, x, true, 0xDF729817092854B6_0A3832075BD45FD3_D00136112ECF3557_95F27708DFD3C452);
    e, x := ClimbP(y, e, x, true, 0x5E01CECA60221A27_68B9D149E07C5083_6DB80800E8BC4E64_EF8F2B148ED25D63);
    e, x := ClimbP(y, e, x, false, 0x4C8300CD71F9A99F_3A529299F93EF0A5_6E4FB08F9CCEC805_8EF7FF0738D2911C);
    e, x := ClimbP(y, e, x, true, 0x4D59829CE02AEA0_3EDB80335EC09A2D_8D3DEFA8D554E78F_0A92F625E70E587F);
    e, x := ClimbP(y, e, x, true, 0xBF7D772E1A221708_A95D0B9BE54568A5_7249D40DDA31A105_66AD27F92B391231);
    e, x := ClimbP(y, e, x, false, 0x7D380539E07478E5_62164ECC7FA423B4_C3B213732DD06A2B_20E11304B276220E);
    e, x := ClimbP(y, e, x, true, 0x61BDED0EE241F88_0A3956BBA9F02839_C2166BA5993FFAEE_16F3EF37B1806081);
    e, x := ClimbP(y, e, x, false, 0x9D1913440479041B_3E9687965F9F300A_538DE20470DF397E_8D201CCF571C1346);
    e, x := ClimbP(y, e, x, true, 0xE8A43CC83D871684_A03122B7740ADBFA_72727FD808D4719A_C5390A42AA873710);
    e, x := ClimbP(y, e, x, true, 0xD616314B134C7511_21E42FE87FEF8283_5F7DB6A0541943D6_DFE92ED84E77AC36);
    e, x := ClimbP(y, e, x, true, 0xC51A484AE7CB00F2_1BDD1B71AB36E70A_E568A57E5B521EEF_8D385C74A3DC54CF);
    e, x := ClimbP(y, e, x, false, 0xE639D5471243C068_40894D618A263A3C_B3E305B3020B3DAE_4A0B1F763F62F486);
    e, x := ClimbP(y, e, x, true, 0x46C68316AD496F74_AE5835F11FDBDE36_ACB55CEC7938B19A_832B724D0664BC56);
    e, x := ClimbP(y, e, x, false, 0x7F17215FD9743D0D_9C223CC857B4A0CB_3E440148C6234B70_9B299749762AFA6E);
    e, x := ClimbP(y, e, x, true, 0xD60750CF63C4E499_B4714140663FB067_5D5699223AB5D65A_D1E0B04698F6472C);
    e, x := ClimbP(y, e, x, true, 0x200B2EE1F789424E_37EF1C8BB984084E_0EDE084E73FB7795_BE42468FC9A2C629);
    e, x := ClimbP(y, e, x, true, 0x5678EA3CEF6CC28B_3CDFB17659DF972B_788C382D2A308289_44BEA2E1B5521494);
    e, x := ClimbP(y, e, x, false, 0x39D80A1A1DFB3DF1_64ABE58DFA990BA1_4E14FC86FFD9167B_7F75F358DA69B575);
    e, x := ClimbP(y, e, x, true, 0x31AEB8FFA208D900_54143D0A9CA872BE_F7F85E10EEDC9DB2_F9C63976247A94FA);
    e, x := ClimbP(y, e, x, true, 0xAF39E7B89CBF1E99_CB7029A2DD8C6081_DAF0276950DD045A_469E0C7EF7D0F93F);
    e, x := ClimbP(y, e, x, false, 0x75DCE8AC1E9D5E0_AD0CCC2B8A2D5448_690A89484A0629DD_D3866AC515CBAD91);
    e, x := ClimbP(y, e, x, false, 0x9BC5B1BFBFAA313C_C877824F13E44828_BECF1C1BD6D02701_E4E3C884812F4DCE);
    e, x := ClimbP(y, e, x, false, 0xFAE96B5783CDD98D_9411C7F84E77140C_27F05EF4DCBF6127_D8973E58C6051D8E);
    e, x := ClimbP(y, e, x, true, 0x9B877F368E7AF39F_8653012124EB68C0_A225E2153474EA64_D01824A290FCE3BE);
    e, x := ClimbP(y, e, x, false, 0x722DF21E3764DD18_C9747340CB6352D1_233033E9CB47BB54_CD7CEC12CD647A67);
    e, x := ClimbP(y, e, x, false, 0x301CFA07D4390FEA_2D3878D1D1FB1EAB_D1C337B579EE89D4_EDFB0863D57509A6);
    e, x := ClimbP(y, e, x, true, 0x720B674B55C74574_19BBFE383BEE98C7_924998C01F17E12C_A397C7D6814850E3);
  }

  lemma PowersP4(y: int) returns (e: nat, x: int)
    requires y == 0x429EC5B06C46C205_46D5AABBE15BFBEE_DCADE9791A517F61_9BF3F4135DC4DA10
    ensures e == 0x1DB_8260E5E3B460A46A_0088FCCF6A3A5936_D75D89A776D4C0DA && x == 0xD1E4B642DF012554_03A2E107F0BB9BE7_6F0273873BEEA04C_CC261DDB1EEA3257
    ensures PowerIs(y, e, x, 0xFFFFFFFFFFFFFFFF_FFFFFFFFFFFFFFFF_FFFFFFFFFFFFFFFF_FFFFFFFEFFFFFC2F)
  {
    hide PowerIs;
    e, x := PowersP3(y);
    e, x := ClimbP(y, e, x, true, 0x34D8F39B2098C3AE_FA765C7CC65E914A_C287C7E5F5B62C4F_4D9FBDBAB20BCE73);
    e, x := ClimbP(y, e, x, false, 0xB2F6F371B3425CA4_DB696530747D7729_A693A36A40126EA2_DBE5DE623A80FCD3);
    e, x := ClimbP(y, e, x, true, 0x20C200FEA8D38184_C8B7E97203D32409_8DFE49C6FBEFC8BA_20E6A84D55100572);
    e, x := ClimbP(y, e, x, false, 0xCC690997B8CBB6F3_17552553783A904B_1EFBE819A51F96C4_D05E2517FEE80AB5);
    e, x := ClimbP(y, e, x, false, 0x146EE6DF41D44043_99CCFE0361888C32_9CE178F0F537652F_71F9F0155F95E2AB);
    e, x := ClimbP(y, e, x, true, 0xCD8FAFE1FE29C161_6DB5972FE825C409_A5529B1B8D3BBB55_569D7ACA8522F01F);
    e, x := ClimbP(y, e, x, true, 0x5909B632B7FA3241_CA2681BF8D9B79E0_0054E70035CDEF1E_1E80583B5B9E4F08);
    e, x := ClimbP(y, e, x, true, 0x618AAF839937915B_4FCA4DB195AB6C9C_A975CD6905ACBCDD_8C2764BDFA7F2A00);
    e, x := ClimbP(y, e, x, false, 0xFC6E65E14FC69D4A_864A826CBA7DF741_EFFBECE27AD0F1BC_D7E516BA86143F6A);
    e, x := ClimbP(y, e, x, true, 0x50624BBEFEFCDDE7_109A0F157851CD29_E611ABD1678678B8_97531BDCB978614F);
    e, x := ClimbP(y, e, x, true, 0xD2B1DBBDCA8EA208_7C19E3B241669EA2_D68A8645D58DCB31_C85B6CB71B5B1E47);
    e, x := ClimbP(y, e, x, true, 0x2401F232239C837D_1AE730F5BEA7D0B3_595EF2BC606AD561_B1F34611CF61D732);
    e, x := ClimbP(y, e, x, false, 0x39216527F1680B84_DE885F6F9F310587_850A7554FCF3C7A2_3CCBF2FA2B7E52A8);
    e, x := ClimbP(y, e, x, true, 0xA2AD14A6EDC3D0BE_EB546F986E6A368C_0B4B6B7E40687297_EF6B82243AC24C90);
    e, x := ClimbP(y, e, x, true, 0x35C23B1CF16DB9F4_C372C89954B74016_5A953314FBB9AB50_AC6C779CD3C78944);
    e, x := ClimbP(y, e, x, false, 0x5F6110F405976973_30A6650463507EE6_76CEB68B14C6F543_44DB2F2A0D9F16B5);
    e, x := ClimbP(y, e, x, true, 0x3BD050C8797A78C6_52DFC2D0E440ADD5_179D0724B6CC1D6F_612F3E958C128E73);
    e, x := ClimbP(y, e, x, true, 0x9BBAC678DF696D95_C201E5320DE9F619_381700CAEEB44AC7_F7DACC396E82F8EA);
    e, x := ClimbP(y, e, x, false, 0x53E62855DF9A5978_903427948CFC3500_FC7E8B0104C1888B_C753983796A35FFE);
    e, x := ClimbP(y, e, x, true, 0xC74E64789D5393D_C8E2A18F054A30A6_E86F9E096AAF4869_74AF31A5BB547383);
    e, x := ClimbP(y, e, x, false, 0xE82E5DB8A262FC6F_25F2D95A3BDB0DE0_B9D5F21562FF0B15_28E2C568D48044F3);
    e, x := ClimbP(y, e, x, true, 0x75CC049F3E0CD4F7_240D0DCC31635084_274EDF5C9FF6A7B4_8117CEBE376A7183);
    e, x := ClimbP(y, e, x, false, 0x85B85C27CC4F43EF_75D17AAFD5DB3E15_6AD8EE1CBD88F654_66B11DE8696559B5);
    e, x := ClimbP(y, e, x, false, 0xDB45DA2C181E1F81_C394A5829641E8CE_8824B8F5FEE5C47A_3FC6CD392CBD43B0);
    e, x := ClimbP(y, e, x, true, 0xDEC91A8C64852DB1_AE5C0E629F286951_E965042C6F2A4124_4455E22BC0A562D4);
    e, x := ClimbP(y, e, x, true, 0xD989BC21A20EFCC3_545302785D662790_C7FBF3C45950EB8B_CE9144237F508116);
    e, x := ClimbP(y, e, x, false, 0xBD6C45F21D73C6F3_3F5EDD328A5D4FCF_46604095EEBA2A17_74F795E26182ED8B);
    e, x := ClimbP(y, e, x, false, 0x1725C1C585C59156_85FC263D4FD6B999_5571E6B349470B8D_0F412813CB5E6678);
    e, x := ClimbP(y, e, x, false, 0x7002853E6AF1BF0B_9565370BB353C2DF_002AB92677182AE2_268E2D4A04D1429B);
    e, x := ClimbP(y, e, x, false, 0x13D4A150934C6828_32D9427C395880F5_594F7E4ADF461A9B_39B1F89583E83B9D);
    e, x := ClimbP(y, e, x, false, 0xD59EDF3DEDF1050B_88E6A1E3C50FCB03_2EB78BFB4509839B_3CCE36ED0D3F20EC);
    e, x := ClimbP(y, e, x, false, 0x1BFC17D326B6F0C1_2141376D23EC453F_97CB0A02F3749E7C_CD2FAB380C81AB01);
    e, x := ClimbP(y, e, x, true, 0x5C3C6B6586CA14E3_B03E5CACA05AB96F_28DAB0D141096D54_2EE80B0D6A9D9C06);
    e, x := ClimbP(y, e, x, true, 0xFE5ECD1A7EE5E84C_3338506CDE6FCB10_827F832EEB523BEA_CBB40F7F3F46AA8B);
    e, x := ClimbP(y, e, x, false, 0x7BE4703D6AD6FBA5_96E012510D1B4777_8A686CF3DE18D0CD_110E711F7BEC23D2);
    e, x := ClimbP(y, e, x, true, 0x4449E475477CE964_4B4C7F43ED9900F8_4E19CFD81CC6A7B3_B84EF9B4FBFD27B5);
    e, x := ClimbP(y, e, x, true, 0x683EB40EAEA774AE_F092137B88F5BE9B_510CF649FE103D5B_105C877CC8997418);
    e, x := ClimbP(y, e, x, false, 0x66121C3DEA966C76_F5ED832AE506FBDC_A8AD01A68DF1DCC4_F4D55806FC2B966D);
    e, x := ClimbP(y, e, x, true, 0xF4D89B6B742B3688_DD448C261F761B12_55B99F688D00495A_4D79159CCB64198C);
    e, x := ClimbP(y, e, x, false, 0xD1E4B642DF012554_03A2E107F0BB9BE7_6F0273873BEEA04C_CC261DDB1EEA3257);
  }

  lemma PowersP5(y: int) returns (e: nat, x: int)
    requires y == 0x429EC5B06C46C205_46D5AABBE15BFBEE_DCADE9791A517F61_9BF3F4135DC4DA10
    ensures e == 0x1DB8260E5E3B_460A46A0088FCCF6_A3A5936D75D89A77_6D4C0DA4F338AAFB && x == 1
    ensures PowerIs(y, e, x, 0xFFFFFFFFFFFFFFFF_FFFFFFFFFFFFFFFF_FFFFFFFFFFFFFFFF_FFFFFFFEFFFFFC2F)
  {
    hide PowerIs;
    e, x := PowersP4(y);
    e, x := ClimbP(y, e, x, false, 0x16DD75054F4E53D_D341490D29F976F2_3592DDADB4FC3586_FFC8D579464A1842);
    e, x := ClimbP(y, e, x, true, 0xA7D5EE13A92D6BC6_9AB90CFE732CD1CC_3EBD8922E3E09271_7A33C1A6B892D0E8);
    e, x := ClimbP(y, e, x, false, 0x4780F96E0B24436B_CCC20F9FCFDCA324_757E539F36A61EB8_25BBD49128C76DA6);
    e, x := ClimbP(y, e, x, false, 0x3433C9751AC20557_D30622AC28909481_CA8B0265C3A1A6AE_AAD9CD9F18B82345);
    e, x := ClimbP(y, e, x, true, 0xCD96CC73C8654317_5D17E6C06BFFA06F_C9DD703CFA796FC3_7D7B5F2666D9F6A0);
    e, x := ClimbP(y, e, x, true, 0x368DDFFC08B27B38_A69DCED55A0F5A5B_B470EF6D2927EF77_A869ED89599A728E);
    e, x := ClimbP(y, e, x, true, 0x18174023C81CC570_24FA9A7806EA883D_039BDBAEDA7C37D2_B2D4291D9D19B067);
    e, x := ClimbP(y, e, x, true, 0xE327EE4820910DF8_C20246306841099D_EAEE4427258B700F_04D184A12F646F47);
    e, x := ClimbP(y, e, x, false, 0x47BE78B8B50098C_A9B45D5DBCEF2BAA_B8A63F39EDE21290_44BEB7D4D384F9FB);
    e, x := ClimbP(y, e, x, false, 0xBFBE3E4B7888015F_DF6B96D5D101B4AF_C537DF7A0869DDE6_CA510B9B490564A4);
    e, x := ClimbP(y, e, x, true, 0x551C2823983392C3_5289A97672DF8605_10C66D7E7DC8D1B5_501370767FC87B44);
    e, x := ClimbP(y, e, x, true, 0x9E2D99E1ECC9DCF5_3C23E8921A4687A1_783FCF1044A9908F_C5B9B2D9DED1DD6D);
    e, x := ClimbP(y, e, x, false, 0x5300AF7E154B5099_D7B48F7927C6BFBD_433382E8342E8A4C_1037790BF6C4DCD2);
    e, x := ClimbP(y, e, x, false, 0x1501ABCF8068B5B6_710800A8F85AF539_DB73B6C12E68049B_71DB64ECC3907A6A);
    e, x := ClimbP(y, e, x, true, 0x9944C4E45D40F167_FD02EA5135362D8A_56F31626C2F4F516_B61B208B4B60A196);
    e, x := ClimbP(y, e, x, true, 0x539D2F50BD812E10_21CC2F1680BF571B_A5FD11B98B94D2FB_ADDBD22B9277E32F);
    e, x := ClimbP(y, e, x, true, 0xE3C38B847B36204A_652E7A612B341799_03A077E382F842B6_B37F91B116889D92);
    e, x := ClimbP(y, e, x, false, 0x5578BA203CA6FA93_7827339DE7229516_2C55FB74B651016B_42A8A167FC97BA6B);
    e, x := ClimbP(y, e, x, false, 0xCFC2C7FA71502D7D_5EFDAAE9D5B439E8_1F1EE3DD977E36D8_635F40BF1F9764D7);
    e, x := ClimbP(y, e, x, false, 0x9845E77CE9553C9C_DB9C82432BD4C550_7557A046EB45C36C_D79815A50FD7E744);
    e, x := ClimbP(y, e, x, true, 0xF5C045768609DDDA_45E9A530E17B3FBB_042F47292B18E985_C3909E040126ECFD);
    e, x := ClimbP(y, e, x, false, 0xEA26B14AE5431A35_8D8DC27654D3DCCB_06327B55E24B2CD9_8FF00349CB60A746);
    e, x := ClimbP(y, e, x, true, 0x857949A4EA8B6912_0062E7962925A4E7_18A41D3CE6185DD7_44F13CF63704D65A);
    e, x := ClimbP(y, e, x, false, 0x1C77DFFE9A6D7F55_DDA05B21B550D555_C51F2D6BC4D3DA22_70118D21F080D96E);
    e, x := ClimbP(y, e, x, true, 0x6767D58B0C1D18BA_7662364CBBAC4522_CE9CB774D4898D2C_D4AD40A712B1B636);
    e, x := ClimbP(y, e, x, false, 0x9F09E7B87074CA9C_0B103A420CAA4939_5D9FAFE134844679_1339616E5F2CD85B);
    e, x := ClimbP(y, e, x, true, 0x272CCD8E25E6F3E5_85470A98C957E09C_8FDE1DF366F8CC64_F6D99F999ADF376E);
    e, x := ClimbP(y, e, x, false, 0x42C686716BCAABA6_0DC5EDAB4B15902C_2D8DA27CB72C2A0B_21AF39FCA6327710);
    e, x := ClimbP(y, e, x, true, 0x1533B9F1388235C4_BFFFDD3F002BE571_8A81C4F4671C6758_26AFDCD48469325B);
    e, x := ClimbP(y, e, x, true, 0x5D38B8BD74BC071_BD590BA380836670_2323E5DC8F7691F0_DCEC11050B912DF6);
    e, x := ClimbP(y, e, x, true, 0x318AF91047D6AE75_46BF72C7A708D369_A3267B8F816ADAA8_982D14C9355B259D);
    e, x := ClimbP(y, e, x, true, 0x5276C9E6E887CC1_1BB22B421B69ABCF_A827FDC6314AE1D0_5AF55AD83AC71D98);
    e, x := ClimbP(y, e, x, true, 0x9BAFEBE2D9B02D6E_7A4A65FB2E1464EE_FDEC54679097EF23_C895A031B78D617E);
    e, x := ClimbP(y, e, x, false, 0x644636DA27BC0B48_82EC6444C2D26649_E960B3380DA931D3_C75BC6E3E94657AD);
    e, x := ClimbP(y, e, x, true, 0xB040F7076C7CFDAA_2C5A379E058AA324_27BD1CAF2CBE3341_02BF5ACCB63ED881);
    e, x := ClimbP(y, e, x, true, 1);
  }

  /** The field prime is prime. */
  lemma FieldPrimeIsPrime()
    ensures Prime(FIELD_P)
  {
    PrimeQ();
    assert FIELD_P == 0xFFFFFFFFFFFFFFFF_FFFFFFFFFFFFFFFF_FFFFFFFFFFFFFFFF_FFFFFFFEFFFFFC2F;
    hide *;
    var y := 0x429EC5B06C46C205_46D5AABBE15BFBEE_DCADE9791A517F61_9BF3F4135DC4DA10;
    var e0, x0 := PowersP5(y);
    OfPowerOne(0xFFFFFFFFFFFFFFFF_FFFFFFFFFFFFFFFF_FFFFFFFFFFFFFFFF_FFFFFFFEFFFFFC2F, e0, y, x0,
               0x55A50F4E5CAE279E_7CAB8B266FF58CCD_44DF516A804A84C1_10B6ADB787D46FC7,
               0x1649ABF4B0BD3B65_24397B629EA1C88C_293CD1AC44FF5463_1EC325633B8CB5D8);
    Pocklington(0xFFFFFFFFFFFFFFFF_FFFFFFFFFFFFFFFF_FFFFFFFFFFFFFFFF_FFFFFFFEFFFFFC2F,
                0x1DB8260E5E3B_460A46A0088FCCF6_A3A5936D75D89A77_6D4C0DA4F338AAFB);
  }
}
