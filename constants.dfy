// Lookup tables shared by the submission forms, the exports and the
// dashboards: grade numbers and labels, RMA grade codes, the SLP subject
// table per grade, the subject label index built from it, and the senior
// high school strands.
module Constants {
  import opened Wrappers

  /** An SLP subject: its stable code and its display name. */
  datatype Subject = Subject(code: string, name: string)

  /** A senior high school strand and the subject-code prefix of its subjects. */
  datatype Strand = Strand(code: string, name: string, prefix: string)

  const GradeNumberToLabel: map<int, string> := map[
    0 := "Kinder", 1 := "Grade 1", 2 := "Grade 2", 3 := "Grade 3",
    4 := "Grade 4", 5 := "Grade 5", 6 := "Grade 6", 7 := "Grade 7",
    8 := "Grade 8", 9 := "Grade 9", 10 := "Grade 10", 11 := "Grade 11",
    12 := "Grade 12"]

  /** Built from the number-to-label table by swapping keys and values. */
  const GradeLabelToNumber: map<string, int> := Invert(GradeNumberToLabel)

  const RmaGradeLabelForNumber: map<int, string> := map[
    0 := "k", 1 := "g1", 2 := "g2", 3 := "g3", 4 := "g4", 5 := "g5",
    6 := "g6", 7 := "g7", 8 := "g8", 9 := "g9", 10 := "g10"]

  const SlpDefaultSubject: Subject := Subject("overall", "Overall Progress")

  /** The subject lists per grade, in the table's own order (0 to 12). */
  const SlpSubjectsByGrade: seq<(int, seq<Subject>)> := [
      (0, [
        Subject("mother_tongue", "Mother Tongue"),
        Subject("filipino", "Filipino"),
        Subject("english", "English"),
        Subject("mathematics", "Mathematics"),
        Subject("araling_panlipunan", "Araling Panlipunan"),
        Subject("mapeh", "MAPEH"),
        Subject("esp", "Edukasyon sa Pagpapakatao")
      ]),
      (1, [
        Subject("mother_tongue", "Mother Tongue"),
        Subject("filipino", "Filipino"),
        Subject("english", "English"),
        Subject("mathematics", "Mathematics"),
        Subject("araling_panlipunan", "Araling Panlipunan"),
        Subject("mapeh", "MAPEH"),
        Subject("esp", "Edukasyon sa Pagpapakatao")
      ]),
      (2, [
        Subject("mother_tongue", "Mother Tongue"),
        Subject("filipino", "Filipino"),
        Subject("english", "English"),
        Subject("mathematics", "Mathematics"),
        Subject("araling_panlipunan", "Araling Panlipunan"),
        Subject("mapeh", "MAPEH"),
        Subject("esp", "Edukasyon sa Pagpapakatao")
      ]),
      (3, [
        Subject("mother_tongue", "Mother Tongue"),
        Subject("filipino", "Filipino"),
        Subject("english", "English"),
        Subject("mathematics", "Mathematics"),
        Subject("science", "Science"),
        Subject("araling_panlipunan", "Araling Panlipunan"),
        Subject("mapeh", "MAPEH"),
        Subject("esp", "Edukasyon sa Pagpapakatao")
      ]),
      (4, [
        Subject("filipino", "Filipino"),
        Subject("english", "English"),
        Subject("mathematics", "Mathematics"),
        Subject("science", "Science"),
        Subject("araling_panlipunan", "Araling Panlipunan"),
        Subject("mapeh", "MAPEH"),
        Subject("esp", "Edukasyon sa Pagpapakatao"),
        Subject("epp", "Edukasyong Pantahanan at Pangkabuhayan")
      ]),
      (5, [
        Subject("filipino", "Filipino"),
        Subject("english", "English"),
        Subject("mathematics", "Mathematics"),
        Subject("science", "Science"),
        Subject("araling_panlipunan", "Araling Panlipunan"),
        Subject("mapeh", "MAPEH"),
        Subject("esp", "Edukasyon sa Pagpapakatao"),
        Subject("epp", "Edukasyong Pantahanan at Pangkabuhayan")
      ]),
      (6, [
        Subject("filipino", "Filipino"),
        Subject("english", "English"),
        Subject("mathematics", "Mathematics"),
        Subject("science", "Science"),
        Subject("araling_panlipunan", "Araling Panlipunan"),
        Subject("mapeh", "MAPEH"),
        Subject("esp", "Edukasyon sa Pagpapakatao"),
        Subject("tle", "Technology and Livelihood Education")
      ]),
      (7, [
        Subject("filipino", "Filipino"),
        Subject("english", "English"),
        Subject("mathematics", "Mathematics"),
        Subject("science", "Science"),
        Subject("araling_panlipunan", "Araling Panlipunan"),
        Subject("mapeh", "MAPEH"),
        Subject("esp", "Edukasyon sa Pagpapakatao"),
        Subject("tle", "Technology and Livelihood Education")
      ]),
      (8, [
        Subject("filipino", "Filipino"),
        Subject("english", "English"),
        Subject("mathematics", "Mathematics"),
        Subject("science", "Science"),
        Subject("araling_panlipunan", "Araling Panlipunan"),
        Subject("mapeh", "MAPEH"),
        Subject("esp", "Edukasyon sa Pagpapakatao"),
        Subject("tle", "Technology and Livelihood Education")
      ]),
      (9, [
        Subject("filipino", "Filipino"),
        Subject("english", "English"),
        Subject("mathematics", "Mathematics"),
        Subject("science", "Science"),
        Subject("araling_panlipunan", "Araling Panlipunan"),
        Subject("mapeh", "MAPEH"),
        Subject("esp", "Edukasyon sa Pagpapakatao"),
        Subject("tle", "Technology and Livelihood Education")
      ]),
      (10, [
        Subject("filipino", "Filipino"),
        Subject("english", "English"),
        Subject("mathematics", "Mathematics"),
        Subject("science", "Science"),
        Subject("araling_panlipunan", "Araling Panlipunan"),
        Subject("mapeh", "MAPEH"),
        Subject("esp", "Edukasyon sa Pagpapakatao"),
        Subject("tle", "Technology and Livelihood Education")
      ]),
      (11, [
        Subject("oral_communication", "Oral Communication"),
        Subject("reading_and_writing", "Reading and Writing"),
        Subject("komunikasyon", "Komunikasyon at Pananaliksik"),
        Subject("pagbasa", "Pagbasa at Pagsusuri"),
        Subject("literature21", "21st Century Literature"),
        Subject("arts_from_regions", "Contemporary Philippine Arts"),
        Subject("media_information_literacy", "Media and Information Literacy"),
        Subject("general_mathematics", "General Mathematics"),
        Subject("statistics_probability", "Statistics and Probability"),
        Subject("earth_life_science", "Earth and Life Science"),
        Subject("physical_science", "Physical Science"),
        Subject("personal_development", "Personal Development"),
        Subject("ucsp", "Understanding Culture, Society, and Politics"),
        Subject("philosophy", "Introduction to Philosophy"),
        Subject("pe_health", "Physical Education and Health"),
        Subject("stem_pre_calculus", "STEM: Pre-Calculus"),
        Subject("stem_basic_calculus", "STEM: Basic Calculus"),
        Subject("stem_gen_biology_1", "STEM: General Biology 1"),
        Subject("stem_gen_physics_1", "STEM: General Physics 1"),
        Subject("stem_gen_chemistry_1", "STEM: General Chemistry 1"),
        Subject("abm_applied_economics", "ABM: Applied Economics"),
        Subject("abm_business_ethics", "ABM: Business Ethics and Social Responsibility"),
        Subject("abm_fabm1", "ABM: Fundamentals of Accountancy, Business and Management 1"),
        Subject("abm_business_math", "ABM: Business Math"),
        Subject("abm_business_finance", "ABM: Business Finance"),
        Subject("abm_org_and_mgmt", "ABM: Organization and Management"),
        Subject("abm_marketing", "ABM: Principles of Marketing"),
        Subject("humss_creative_writing", "HUMSS: Creative Writing"),
        Subject("humss_creative_nonfiction", "HUMSS: Creative Nonfiction"),
        Subject("humss_world_religions", "HUMSS: World Religions and Belief Systems"),
        Subject("humss_tnct", "HUMSS: Trends, Networks, and Critical Thinking"),
        Subject("humss_philippine_politics", "HUMSS: Philippine Politics and Governance"),
        Subject("humss_diss", "HUMSS: Disciplines and Ideas in the Social Sciences"),
        Subject("humss_diams", "HUMSS: Disciplines and Ideas in the Applied Social Sciences"),
        Subject("gas_humanities_1", "GAS: Humanities 1"),
        Subject("gas_social_science_1", "GAS: Social Science 1"),
        Subject("gas_applied_economics", "GAS: Applied Economics"),
        Subject("gas_organization_management", "GAS: Organization and Management"),
        Subject("gas_drr", "GAS: Disaster Readiness and Risk Reduction"),
        Subject("tvl_ict_css", "TVL-ICT: Computer Systems Servicing"),
        Subject("tvl_ict_programming", "TVL-ICT: Programming"),
        Subject("tvl_ict_animation", "TVL-ICT: Animation"),
        Subject("tvl_ict_illustration", "TVL-ICT: Illustration"),
        Subject("tvl_he_cookery", "TVL-HE: Cookery"),
        Subject("tvl_he_bpp", "TVL-HE: Bread and Pastry Production"),
        Subject("tvl_he_housekeeping", "TVL-HE: Housekeeping"),
        Subject("tvl_he_fbs", "TVL-HE: Food and Beverage Services"),
        Subject("tvl_ia_smaw", "TVL-IA: Shielded Metal Arc Welding"),
        Subject("tvl_ia_eim", "TVL-IA: Electrical Installation and Maintenance"),
        Subject("tvl_ia_carpentry", "TVL-IA: Carpentry"),
        Subject("tvl_ia_plumbing", "TVL-IA: Plumbing"),
        Subject("tvl_agri_crop_production", "TVL-Agri-Fishery: Crop Production"),
        Subject("tvl_agri_animal_production", "TVL-Agri-Fishery: Animal Production"),
        Subject("tvl_agri_fish_processing", "TVL-Agri-Fishery: Fish Processing"),
        Subject("tvl_agri_aquaculture", "TVL-Agri-Fishery: Aquaculture"),
        Subject("ad_creative_industries", "Arts & Design: Creative Industries"),
        Subject("ad_media_arts", "Arts & Design: Media Arts"),
        Subject("ad_visual_arts", "Arts & Design: Visual Arts"),
        Subject("ad_performing_arts", "Arts & Design: Performing Arts"),
        Subject("sports_physical_fitness", "Sports: Physical Fitness"),
        Subject("sports_fitness_testing", "Sports: Fitness Testing"),
        Subject("sports_officiating", "Sports: Sports Officiating"),
        Subject("sports_coaching", "Sports: Coaching"),
        Subject("sports_safety_first_aid", "Sports: Safety and First Aid")
      ]),
      (12, [
        Subject("practical_research", "Practical Research / Research in Daily Life"),
        Subject("inquiries_investigations", "Inquiries, Investigations, and Immersion"),
        Subject("work_immersion", "Work Immersion / Apprenticeship"),
        Subject("media_information_literacy", "Media and Information Literacy"),
        Subject("personal_development", "Personal Development"),
        Subject("stem_gen_biology_2", "STEM: General Biology 2"),
        Subject("stem_gen_physics_2", "STEM: General Physics 2"),
        Subject("stem_gen_chemistry_2", "STEM: General Chemistry 2"),
        Subject("abm_fabm2", "ABM: Fundamentals of Accountancy, Business and Management 2"),
        Subject("humss_community_engagement", "HUMSS: Community Engagement, Solidarity and Citizenship"),
        Subject("gas_humanities_2", "GAS: Humanities 2"),
        Subject("gas_social_science_2", "GAS: Social Science 2"),
        Subject("tvl_ict_desktop_publishing", "TVL-ICT: Desktop Publishing"),
        Subject("tvl_ict_broadband", "TVL-ICT: Broadband Installation"),
        Subject("tvl_he_tourism", "TVL-HE: Tourism Promotion Services"),
        Subject("tvl_he_front_office", "TVL-HE: Front Office Services"),
        Subject("tvl_ia_drafting", "TVL-IA: Drafting"),
        Subject("tvl_ia_mechanics", "TVL-IA: Automotive Servicing"),
        Subject("tvl_agri_organic_agriculture", "TVL-Agri-Fishery: Organic Agriculture"),
        Subject("tvl_agri_farm_business", "TVL-Agri-Fishery: Farm Business Management"),
        Subject("ad_creative_industries_2", "Arts & Design: Creative Industries 2"),
        Subject("ad_performing_arts_2", "Arts & Design: Performing Arts 2"),
        Subject("sports_psychology", "Sports: Sports Psychology"),
        Subject("sports_leadership", "Sports: Sports Leadership and Management")
      ])
    ]

  /** No two keys of m share a value. */
  ghost predicate Injective<K, V>(m: map<K, V>)
  {
    forall a, b :: a in m && b in m && a != b ==> m[a] != m[b]
  }

  /** The dict comprehension that swaps keys and values. */
  function Invert<K, V>(m: map<K, V>): (r: map<V, K>)
    requires Injective(m)
    ensures forall k :: k in m ==> m[k] in r && r[m[k]] == k
    ensures forall v :: v in r ==> exists k :: k in m && m[k] == v
  {
    map k | k in m :: m[k] := k
  }

  /** The subject list of grade g, when the table has one. */
  function SubjectsForGrade(g: int): Option<seq<Subject>>
  {
    FindGrade(SlpSubjectsByGrade, g)
  }

  function FindGrade(table: seq<(int, seq<Subject>)>, g: int): (r: Option<seq<Subject>>)
    ensures r.Some? <==> exists i :: 0 <= i < |table| && table[i].0 == g
    ensures r.Some? ==> exists i :: 0 <= i < |table| && table[i] == (g, r.value)
  {
    if table == [] then None
    else if table[0].0 == g then Some(table[0].1)
    else
      var r := FindGrade(table[1..], g);
      assert forall i :: 1 <= i < |table| ==> table[i] == table[1..][i - 1];
      r
  }

  /** Python's dict.setdefault: keep an existing label, add a missing one. */
  function SetDefault(labels: map<string, string>, s: Subject): map<string, string>
  {
    if s.code in labels then labels else labels[s.code := s.name]
  }

  /** setdefault applied to every subject of subs, left to right. */
  function SetDefaultAll(labels: map<string, string>, subs: seq<Subject>): map<string, string>
    decreases |subs|
  {
    if subs == [] then labels
    else SetDefault(SetDefaultAll(labels, subs[..|subs| - 1]), subs[|subs| - 1])
  }

  /** The concatenation of every grade's subject list, in table order. */
  function Flatten(table: seq<(int, seq<Subject>)>): seq<Subject>
    decreases |table|
  {
    if table == [] then [] else Flatten(table[..|table| - 1]) + table[|table| - 1].1
  }

  function Codes(subs: seq<Subject>): set<string>
  {
    set i | 0 <= i < |subs| :: subs[i].code
  }

  /** The label index: the default subject first, then every listed subject. */
  function SubjectLabelsOf(table: seq<(int, seq<Subject>)>): map<string, string>
  {
    SetDefaultAll(map[SlpDefaultSubject.code := SlpDefaultSubject.name], Flatten(table))
  }

  const SlpSubjectLabels: map<string, string> := SubjectLabelsOf(SlpSubjectsByGrade)

  const ShsStrands: seq<Strand> := [
    Strand("stem", "STEM", "stem_"),
    Strand("abm", "ABM", "abm_"),
    Strand("humss", "HUMSS", "humss_"),
    Strand("gas", "GAS", "gas_"),
    Strand("tvl_ict", "TVL-ICT", "tvl_ict_"),
    Strand("tvl_he", "TVL-HE", "tvl_he_"),
    Strand("tvl_ia", "TVL-IA", "tvl_ia_"),
    Strand("tvl_agri", "TVL-Agri-Fishery", "tvl_agri_"),
    Strand("arts", "Arts & Design", "ad_"),
    Strand("sports", "Sports", "sports_")
  ]

  /** No two grades share a label. */
  lemma GradeLabelsInjective()
    ensures forall n :: n in GradeNumberToLabel <==> 0 <= n <= 12
    ensures Injective(GradeNumberToLabel)
  {
  }

  /** The label table and its swapped copy are inverse over grades 0..12. */
  lemma GradeMapsInverse()
    ensures forall n :: 0 <= n <= 12 ==>
      GradeNumberToLabel[n] in GradeLabelToNumber && GradeLabelToNumber[GradeNumberToLabel[n]] == n
    ensures forall l :: l in GradeLabelToNumber ==>
      GradeLabelToNumber[l] in GradeNumberToLabel && GradeNumberToLabel[GradeLabelToNumber[l]] == l
  {
    GradeLabelsInjective();
  }

  /** The RMA code table is defined on exactly 0..10 and no two grades share a code. */
  lemma RmaCodesInjective()
    ensures forall n :: n in RmaGradeLabelForNumber <==> 0 <= n <= 10
    ensures forall a, b :: a in RmaGradeLabelForNumber && b in RmaGradeLabelForNumber && a != b ==>
      RmaGradeLabelForNumber[a] != RmaGradeLabelForNumber[b]
  {
  }

  /** Every one of the ten strands has a prefix that ends in an underscore. */
  lemma StrandPrefixes()
    ensures |ShsStrands| == 10
    ensures forall i :: 0 <= i < |ShsStrands| ==>
      |ShsStrands[i].prefix| > 0 && ShsStrands[i].prefix[|ShsStrands[i].prefix| - 1] == '_'
  {
  }

  /** setdefault never replaces a label and adds exactly the codes seen. */
  lemma {:induction false} SetDefaultAllKeeps(labels: map<string, string>, subs: seq<Subject>)
    ensures SetDefaultAll(labels, subs).Keys == labels.Keys + Codes(subs)
    ensures forall k :: k in labels ==> SetDefaultAll(labels, subs)[k] == labels[k]
    decreases |subs|
  {
    if subs != [] {
      var init := subs[..|subs| - 1];
      SetDefaultAllKeeps(labels, init);
      assert Codes(subs) == Codes(init) + {subs[|subs| - 1].code} by {
        assert forall i :: 0 <= i < |init| ==> init[i] == subs[i];
      }
    }
  }

  /** The label kept for a code is the one of its first occurrence. */
  lemma {:induction false} FirstLabelWins(labels: map<string, string>, subs: seq<Subject>, k: int)
    requires 0 <= k < |subs| && subs[k].code !in labels
    requires forall j :: 0 <= j < k ==> subs[j].code != subs[k].code
    ensures subs[k].code in SetDefaultAll(labels, subs)
    ensures SetDefaultAll(labels, subs)[subs[k].code] == subs[k].name
    decreases |subs|
  {
    var init := subs[..|subs| - 1];
    SetDefaultAllKeeps(labels, init);
    if k == |subs| - 1 {
      assert subs[k].code !in Codes(init) by {
        forall j | 0 <= j < |init| ensures init[j].code != subs[k].code {
          assert init[j] == subs[j];
        }
      }
    } else {
      assert init[k] == subs[k];
      assert forall j :: 0 <= j < k ==> init[j] == subs[j];
      FirstLabelWins(labels, init, k);
    }
  }

  /** Every listed subject's code appears in the table's concatenation. */
  lemma {:induction false} FlattenCovers(table: seq<(int, seq<Subject>)>, i: int, j: int)
    requires 0 <= i < |table| && 0 <= j < |table[i].1|
    ensures table[i].1[j].code in Codes(Flatten(table))
    decreases |table|
  {
    var init := table[..|table| - 1];
    var f := Flatten(table);
    if i == |table| - 1 {
      assert f[|Flatten(init)| + j] == table[i].1[j];
    } else {
      assert init[i] == table[i];
      FlattenCovers(init, i, j);
      var k :| 0 <= k < |Flatten(init)| && Flatten(init)[k].code == table[i].1[j].code;
      assert f[k] == Flatten(init)[k];
    }
  }

  /** The label index holds 'overall' with its label and every subject code of every grade. */
  lemma SubjectLabelsCover(table: seq<(int, seq<Subject>)>)
    ensures SlpDefaultSubject.code in SubjectLabelsOf(table)
    ensures SubjectLabelsOf(table)[SlpDefaultSubject.code] == SlpDefaultSubject.name
    ensures forall i, j :: 0 <= i < |table| && 0 <= j < |table[i].1| ==>
      table[i].1[j].code in SubjectLabelsOf(table)
  {
    SetDefaultAllKeeps(map[SlpDefaultSubject.code := SlpDefaultSubject.name], Flatten(table));
    forall i, j | 0 <= i < |table| && 0 <= j < |table[i].1|
      ensures table[i].1[j].code in SubjectLabelsOf(table)
    {
      FlattenCovers(table, i, j);
    }
  }

  /** The module-level setdefault loop: it fills the index grade by grade. */
  method BuildSubjectLabels(table: seq<(int, seq<Subject>)>) returns (labels: map<string, string>)
    ensures labels == SubjectLabelsOf(table)
  {
    labels := map[SlpDefaultSubject.code := SlpDefaultSubject.name];
    var i := 0;
    while i < |table|
      invariant 0 <= i <= |table|
      invariant labels == SetDefaultAll(map[SlpDefaultSubject.code := SlpDefaultSubject.name], Flatten(table[..i]))
    {
      var subs := table[i].1;
      var j := 0;
      assert Flatten(table[..i]) + subs[..j] == Flatten(table[..i]);
      while j < |subs|
        invariant 0 <= j <= |subs|
        invariant labels == SetDefaultAll(map[SlpDefaultSubject.code := SlpDefaultSubject.name], Flatten(table[..i]) + subs[..j])
      {
        var done := Flatten(table[..i]) + subs[..j + 1];
        assert done[..|done| - 1] == Flatten(table[..i]) + subs[..j];
        labels := SetDefault(labels, subs[j]);
        j := j + 1;
      }
      assert table[..i + 1][..i] == table[..i];
      assert subs[..j] == subs;
      i := i + 1;
    }
    assert table[..i] == table;
  }
}
