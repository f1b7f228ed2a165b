/** The public doctor directory: the search box, the speciality selection, the speciality list and
    the result count. */
module DoctorDirectory {
  import opened Entities
  import opened Seqs
  import opened Text

  /** The search keeps a doctor whose name or speciality contains the term, ignoring case. */
  predicate MatchesDoctorSearch(d: Doctor, term: string)
  {
    Contains(Lower(d.name), Lower(term)) || Contains(Lower(d.speciality), Lower(term))
  }

  predicate KeptDoctor(d: Doctor, searchTerm: string, specialty: string)
  {
    (searchTerm == "" || MatchesDoctorSearch(d, searchTerm)) && (specialty == "" || d.speciality == specialty)
  }

  /** `filterDoctors`: the search, when set, then the speciality, when set. */
  function FilterDoctors(doctors: seq<Doctor>, searchTerm: string, specialty: string): (r: seq<Doctor>)
    ensures r == Filter(doctors, (d: Doctor) => KeptDoctor(d, searchTerm, specialty))
  {
    var afterSearch := if searchTerm != "" then Filter(doctors, (d: Doctor) => MatchesDoctorSearch(d, searchTerm)) else doctors;
    var r := if specialty != "" then Filter(afterSearch, (d: Doctor) => d.speciality == specialty) else afterSearch;
    FilterIfFirst(doctors, searchTerm != "", (d: Doctor) => MatchesDoctorSearch(d, searchTerm),
                  (d: Doctor) => searchTerm == "" || MatchesDoctorSearch(d, searchTerm));
    FilterIfNext(doctors, specialty != "", (d: Doctor) => searchTerm == "" || MatchesDoctorSearch(d, searchTerm),
                 (d: Doctor) => d.speciality == specialty, (d: Doctor) => KeptDoctor(d, searchTerm, specialty));
    r
  }

  /** The result keeps the directory's order, is everything when both inputs are empty, and keeps
      a doctor exactly when the search and the speciality let it through. */
  lemma FilterDoctorsExact(doctors: seq<Doctor>, searchTerm: string, specialty: string)
    ensures IsSubseq(FilterDoctors(doctors, searchTerm, specialty), doctors)
    ensures searchTerm == "" && specialty == "" ==> FilterDoctors(doctors, searchTerm, specialty) == doctors
    ensures forall d :: d in FilterDoctors(doctors, searchTerm, specialty) <==>
      d in doctors &&
      (searchTerm == "" || Contains(Lower(d.name), Lower(searchTerm)) || Contains(Lower(d.speciality), Lower(searchTerm))) &&
      (specialty == "" || d.speciality == specialty)
  {
    var keep := (d: Doctor) => KeptDoctor(d, searchTerm, specialty);
    FilterIsSubseq(doctors, keep);
    if searchTerm == "" && specialty == "" {
      FilterAll(doctors, keep);
    }
    forall d ensures d in FilterDoctors(doctors, searchTerm, specialty) <==> d in doctors && keep(d) {
      if d in doctors && keep(d) {
        var k :| 0 <= k < |doctors| && doctors[k] == d;
      }
    }
  }

  /** `[...new Set(doctors.map(d => d.speciality))]`: every doctor's speciality, once each, and
      nothing else. */
  function SpecialityOptions(doctors: seq<Doctor>): (r: seq<string>)
    ensures NoDuplicates(r)
    ensures forall i :: 0 <= i < |doctors| ==> doctors[i].speciality in r
    ensures forall i :: 0 <= i < |r| ==> exists j :: 0 <= j < |doctors| && doctors[j].speciality == r[i]
  {
    var all := seq(|doctors|, i requires 0 <= i < |doctors| => doctors[i].speciality);
    assert forall j :: 0 <= j < |doctors| ==> all[j] == doctors[j].speciality;
    var r := Dedup(all);
    assert forall i :: 0 <= i < |r| ==> r[i] in all;
    r
  }

  /** "Found N doctor" / "Found N doctors": the plural suffix is left off only for exactly one. */
  function CountNoun(n: nat): (w: string)
    ensures n == 1 <==> w == "doctor"
    ensures n != 1 <==> w == "doctors"
  {
    "doctor" + (if n != 1 then "s" else "")
  }
}
