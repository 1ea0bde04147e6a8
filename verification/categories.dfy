/**
 The thirty funding search categories of the domain model, in the order
 the nightly schedule lists them.
 */
module Categories {
  datatype FundingSearchCategory =
    | INDIVIDUAL_SCHOLARSHIPS | STUDENT_FINANCIAL_AID | TEACHER_SCHOLARSHIPS | ACADEMIC_FELLOWSHIPS
    | PROGRAM_GRANTS | CURRICULUM_DEVELOPMENT | AFTER_SCHOOL_PROGRAMS | SUMMER_PROGRAMS | EXTRACURRICULAR_ACTIVITIES
    | INFRASTRUCTURE_FUNDING | TECHNOLOGY_EQUIPMENT | LIBRARY_RESOURCES
    | TEACHER_DEVELOPMENT | PROFESSIONAL_TRAINING | ADMINISTRATIVE_CAPACITY
    | STEM_EDUCATION | ARTS_EDUCATION | SPECIAL_NEEDS_EDUCATION | LANGUAGE_PROGRAMS
    | COMMUNITY_PARTNERSHIPS | PARENT_ENGAGEMENT | NGO_EDUCATION_PROJECTS
    | EDUCATION_RESEARCH | PILOT_PROGRAMS | INNOVATION_GRANTS | EARLY_CHILDHOOD_EDUCATION
    | ADULT_EDUCATION | VOCATIONAL_TRAINING | EDUCATIONAL_TECHNOLOGY | ARTS_CULTURE
}
