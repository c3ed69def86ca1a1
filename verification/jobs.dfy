/** The job postings served by the search-jobs endpoint: the `Job` record
    and the fixed, ordered catalog `curatedJobs` (app/api/search-jobs/route.ts). */
module Jobs {

  import opened Wrappers

  /** The closed literal type `'yes' | 'no' | 'unknown'` of `visaSponsorship`. */
  datatype Visa = Yes | No | Unknown

  /** The literal a visa value is written as in the JSON response. */
  function VisaWire(v: Visa): (s: string)
    ensures s in ["yes", "no", "unknown"]
  {
    match v
    case Yes => "yes"
    case No => "no"
    case Unknown => "unknown"
  }

  /** Reads a `visaSponsorship` literal back; any other string is not a visa value. */
  function ParseVisa(s: string): (r: Option<Visa>)
    ensures r.Some? <==> s in ["yes", "no", "unknown"]
  {
    if s == "yes" then Some(Yes)
    else if s == "no" then Some(No)
    else if s == "unknown" then Some(Unknown)
    else None
  }

  /** Writing a visa value and reading it back gives the same value. */
  lemma VisaWireRoundTrip(v: Visa)
    ensures ParseVisa(VisaWire(v)) == Some(v)
  {
    match v
    case Yes =>
    case No =>
    case Unknown =>
  }

  /** Reading a literal and writing it back gives the same literal. */
  lemma ParseVisaRoundTrip(s: string)
    requires ParseVisa(s).Some?
    ensures VisaWire(ParseVisa(s).value) == s
  {
  }

  /** One job posting. Only `country` takes part in matching. */
  datatype Job = Job(
    title: string,
    company: string,
    country: string,
    visaSponsorship: Visa,
    matchReason: string,
    applyLink: string,
    source: string)

  /** The fifteen curated postings, in catalog order. */
  const CuratedJobs: seq<Job> :=
    [
      Job(
        "Digital Marketing Executive",
        "Media Agency Group",
        "UK",
        Yes,
        "Perfect fit for your digital marketing expertise, content creation skills, and 1.5+ years experience. This role values social media management and SEO knowledge.",
        "https://uk.indeed.com/jobs?q=digital+marketing+executive+visa+sponsorship&l=United+Kingdom",
        "Indeed UK"),
      Job(
        "Content Creator & Social Media Specialist",
        "Creative Digital Agency",
        "Netherlands",
        Yes,
        "Combines your content creation, social media management, and video editing skills. Dutch agencies often sponsor international creative talent.",
        "https://nl.indeed.com/jobs?q=content+creator+visa+sponsorship&l=Netherlands",
        "Indeed Netherlands"),
      Job(
        "Videographer & Content Producer",
        "Media Production House",
        "Ireland",
        Yes,
        "Leverages your videography, video editing, and content creation expertise. Ireland has strong demand for multimedia content creators.",
        "https://ie.indeed.com/jobs?q=videographer+video+editor&l=Ireland",
        "Indeed Ireland"),
      Job(
        "WordPress Content Manager",
        "Digital Solutions Ltd",
        "UK",
        Yes,
        "Direct match for your WordPress development skills combined with content management and SEO basics.",
        "https://www.reed.co.uk/jobs/wordpress-content-manager-jobs",
        "Reed UK"),
      Job(
        "Marketing Assistant - Digital Focus",
        "Tech Startup Hub",
        "Belgium",
        Yes,
        "Entry-to-mid level role perfect for your 1.5+ years experience. Matches your digital marketing and social media skills.",
        "https://www.linkedin.com/jobs/search/?keywords=marketing%20assistant%20visa%20sponsorship&location=Belgium",
        "LinkedIn"),
      Job(
        "Social Media Manager",
        "E-commerce Growth Agency",
        "Netherlands",
        Yes,
        "Perfect for your social media management expertise, content creation abilities, and graphic design skills.",
        "https://www.glassdoor.com/Job/netherlands-social-media-manager-jobs-SRCH_IL.0,11_IN148_KO12,32.htm",
        "Glassdoor"),
      Job(
        "Video Editor & Motion Graphics Designer",
        "Creative Media Studio",
        "Ireland",
        Yes,
        "Matches your video editing and graphic design skills. Irish creative industry actively recruits international talent.",
        "https://www.jobs.ie/jobs/video-editor/",
        "Jobs.ie"),
      Job(
        "Digital Content Specialist",
        "Marketing Communications Firm",
        "UK",
        Yes,
        "Combines content creation, digital marketing, and WordPress skills. UK tier 2 visa sponsorship available.",
        "https://www.totaljobs.com/jobs/digital-content-specialist",
        "TotalJobs UK"),
      Job(
        "Creative Marketing Assistant",
        "Brand Development Agency",
        "Belgium",
        Yes,
        "Leverages your creative skills (graphic design, videography) with marketing expertise. Belgium offers visa pathways for skilled workers.",
        "https://www.stepstone.be/en/jobs/marketing-assistant",
        "StepStone Belgium"),
      Job(
        "Junior Digital Marketer",
        "Growth Marketing Team",
        "Italy",
        Unknown,
        "Entry-level opportunity matching your experience level. Covers digital marketing, content, and social media skills.",
        "https://it.indeed.com/jobs?q=digital+marketer&l=Italy",
        "Indeed Italy"),
      Job(
        "Content & Social Media Coordinator",
        "International Brand Agency",
        "Netherlands",
        Yes,
        "Ideal blend of your social media management, content creation, and digital marketing background.",
        "https://www.monsterboard.nl/jobs/search?q=content+social+media+coordinator",
        "Monster Netherlands"),
      Job(
        "Multimedia Content Creator",
        "Digital Publishing Company",
        "UK",
        Yes,
        "Perfect match for your videography, video editing, content creation, and graphic design portfolio.",
        "https://uk.indeed.com/jobs?q=multimedia+content+creator&l=United+Kingdom",
        "Indeed UK"),
      Job(
        "SEO & Content Marketing Assistant",
        "Digital Agency",
        "Ireland",
        Yes,
        "Matches your SEO basics knowledge with content creation and WordPress skills. Great stepping stone role.",
        "https://www.irishjobs.ie/Jobs/SEO-Content-Marketing",
        "IrishJobs.ie"),
      Job(
        "Video Content Producer",
        "Media & Entertainment",
        "UK",
        Yes,
        "Directly uses your videography and video editing expertise. Content production is in high demand in UK.",
        "https://www.cv-library.co.uk/search-jobs?q=video+content+producer",
        "CV-Library UK"),
      Job(
        "WordPress Developer & Content Manager",
        "Web Solutions Agency",
        "Belgium",
        Unknown,
        "Combines your WordPress development skills with content management and SEO knowledge.",
        "https://www.linkedin.com/jobs/search/?keywords=wordpress%20developer&location=Belgium",
        "LinkedIn")
    ]

  /** The countries that occur in the catalog, each at least once. */
  const CatalogCountries: seq<string> := ["UK", "Netherlands", "Ireland", "Belgium", "Italy"]

  /** Where each catalog country first occurs, and that no other occurs. */
  lemma CatalogCountriesAt()
    ensures forall i :: 0 <= i < |CuratedJobs| ==> CuratedJobs[i].country in CatalogCountries
    ensures CuratedJobs[0].country == "UK" && CuratedJobs[1].country == "Netherlands"
    ensures CuratedJobs[2].country == "Ireland" && CuratedJobs[4].country == "Belgium"
    ensures CuratedJobs[9].country == "Italy"
    ensures forall i :: 0 <= i < 1 ==> CuratedJobs[i].country != "Netherlands"
    ensures forall i :: 0 <= i < 2 ==> CuratedJobs[i].country != "Ireland"
    ensures forall i :: 0 <= i < 4 ==> CuratedJobs[i].country != "Belgium"
    ensures forall i :: 0 <= i < 9 ==> CuratedJobs[i].country != "Italy"
  {
  }

  /** `CatalogCountries` is exactly the set of countries of the catalog. */
  lemma CatalogCountriesExact()
    ensures forall j :: j in CuratedJobs ==> j.country in CatalogCountries
    ensures forall c :: c in CatalogCountries ==> exists j :: j in CuratedJobs && j.country == c
  {
    CatalogCountriesAt();
    var firsts := [CuratedJobs[0], CuratedJobs[1], CuratedJobs[2], CuratedJobs[4], CuratedJobs[9]];
    forall c | c in CatalogCountries ensures exists j :: j in CuratedJobs && j.country == c {
      var k :| 0 <= k < |firsts| && CatalogCountries[k] == c;
      assert firsts[k] in CuratedJobs && firsts[k].country == c;
    }
  }
}
